/** The identifier supply shared by the stores. */
module Identifiers {
  import opened Prelude

  /** It never repeats itself. */
  class Generator {
    var issued: set<Id>

    constructor ()
      ensures issued == {}
    {
      issued := {};
    }

    method New() returns (id: Id)
      modifies this
      ensures id != "" && id !in old(issued) && issued == old(issued) + {id}
    {
      ghost var witnessId := FreshId(issued);
      id :| id != "" && id !in issued;
      issued := issued + {id};
    }
  }
}
