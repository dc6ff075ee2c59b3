/**
 * The session score and the high score, which is read from persistent
 * storage on creation and written back to it whenever it is beaten.
 */
module ScoreTracker {

  /** The storage key of the high score. */
  const HighScoreKey: string := "highScore"

  /**
   * Persistent key-value storage. A stored value is the integer its string
   * spells; a missing key stands for a missing item.
   */
  class Store {
    var items: map<string, int>

    constructor (items: map<string, int>)
      ensures this.items == items
    {
      this.items := items;
    }
  }

  /** The high score a new scoreboard reads: the stored value, or 0 when the key is absent. */
  function LoadHighScore(items: map<string, int>): int
  {
    if HighScoreKey in items then items[HighScoreKey] else 0
  }

  /** The scoreboard's fields together with the storage contents. */
  datatype ScoreState = ScoreState(score: int, highScore: int, stored: map<string, int>)

  /** A new scoreboard over storage `items`. */
  function Fresh(items: map<string, int>): (s: ScoreState)
    ensures s.score == 0 && s.stored == items
    ensures s.highScore == LoadHighScore(items)
  {
    ScoreState(0, LoadHighScore(items), items)
  }

  /** incrementScore: score + 1; if that beats the high score, raise it and write it through. */
  function Incremented(s: ScoreState): ScoreState
  {
    var score := s.score + 1;
    if score > s.highScore then
      ScoreState(score, score, s.stored[HighScoreKey := score])
    else
      s.(score := score)
  }

  /** The high score in memory is the one storage would give a new scoreboard. */
  ghost predicate Synced(s: ScoreState)
  {
    LoadHighScore(s.stored) == s.highScore
  }

  /** A new scoreboard agrees with storage. */
  lemma FreshIsSynced(items: map<string, int>)
    ensures Synced(Fresh(items))
  {
  }

  /**
   * An increment adds exactly one to the score, leaves the high score at least
   * the score, never lowers the high score, and touches storage only when the
   * high score rises, and then with the new high score.
   */
  lemma IncrementFacts(s: ScoreState)
    ensures Incremented(s).score == s.score + 1
    ensures Incremented(s).highScore >= Incremented(s).score
    ensures Incremented(s).highScore >= s.highScore
    ensures Incremented(s).highScore == if s.score + 1 > s.highScore then s.score + 1 else s.highScore
    ensures Incremented(s).stored ==
      if Incremented(s).highScore > s.highScore then s.stored[HighScoreKey := Incremented(s).highScore]
      else s.stored
  {
  }

  /** Write-through keeps memory and storage in agreement. */
  lemma IncrementKeepsSynced(s: ScoreState)
    requires Synced(s)
    ensures Synced(Incremented(s))
  {
  }

  /** Any number of increments never lowers the high score, and storage still agrees. */
  function IncrementedTimes(s: ScoreState, k: nat): ScoreState
  {
    if k == 0 then s else Incremented(IncrementedTimes(s, k - 1))
  }

  lemma {:induction false} HighScoreNeverDrops(s: ScoreState, k: nat)
    requires Synced(s)
    ensures IncrementedTimes(s, k).highScore >= s.highScore
    ensures IncrementedTimes(s, k).score == s.score + k
    ensures k > 0 ==> IncrementedTimes(s, k).highScore >= IncrementedTimes(s, k).score
    ensures Synced(IncrementedTimes(s, k))
  {
    if k > 0 {
      HighScoreNeverDrops(s, k - 1);
      IncrementFacts(IncrementedTimes(s, k - 1));
    }
  }

  class Scoreboard {
    var score: int
    var highScore: int
    /** The storage the high score is loaded from and written to. */
    const store: Store

    function State(): ScoreState
      reads this, store
    {
      ScoreState(score, highScore, store.items)
    }

    constructor (store: Store)
      ensures this.store == store
      ensures State() == Fresh(store.items)
    {
      this.store := store;
      score := 0;
      highScore := LoadHighScore(store.items);
    }

    function GetScore(): (r: int)
      reads this
      ensures r == score
    {
      score
    }

    function GetHighScore(): (r: int)
      reads this
      ensures r == highScore
    {
      highScore
    }

    method IncrementScore()
      modifies this, store
      ensures State() == Incremented(old(State()))
    {
      score := score + 1;
      if score > highScore {
        highScore := score;
        SetHighScore();
      }
    }

    /** Writes the high score to storage under its key; nothing else changes. */
    method SetHighScore()
      modifies store
      ensures store.items == old(store.items)[HighScoreKey := highScore]
    {
      store.items := store.items[HighScoreKey := highScore];
    }
  }
}
