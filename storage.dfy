/** The shared in-memory store both repositories work on. */
module Storage {
  import opened Companies
  import opened DrivingSchools

  /** `CrenautoStorage`: the two lists of the store, replaced or extended in place. */
  class CrenautoStorage {
    var companies: seq<Company>
    var drivingSchools: seq<DrivingSchool>

    /** A new store holds no company and no driving school. */
    constructor()
      ensures companies == [] && drivingSchools == []
    {
      companies := [];
      drivingSchools := [];
    }

    /** `$reset`: empties both lists. */
    method Reset()
      modifies this
      ensures companies == [] && drivingSchools == []
    {
      companies := [];
      drivingSchools := [];
    }
  }
}
