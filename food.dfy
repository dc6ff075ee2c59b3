/** The food item: one cell, overwritten when the snake eats it. */
module FoodSpawner {
  import opened Geometry

  /** Where a new food item starts before it is placed. */
  const DefaultLocation: Coord := Coord(10, 10)

  class Food {
    var location: Coord

    constructor ()
      ensures location == DefaultLocation
    {
      location := Coord(10, 10);
    }

    /** A copy of the current cell; reading it changes nothing. */
    function GetLocation(): (r: Coord)
      reads this
      ensures r == location
    {
      location
    }

    /** Overwrites the cell; the location is the only field. */
    method SetLocation(newLocation: Coord)
      modifies this
      ensures location == newLocation
      ensures GetLocation() == newLocation
    {
      location := newLocation;
    }
  }
}
