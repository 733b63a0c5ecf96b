/** Values shared by every component: options, endings and fresh identifiers. */
module Prelude {
  datatype Option<+T> = None | Some(value: T)

  /** How a writing statement or a commit ends: done, done but the reply is lost, or not done. */
  datatype Ending = Delivered | Lost | Refused

  type Id = string
  type Time = int
  type Bytes = seq<bv8>

  /** PostgreSQL's nullif(text, ''). */
  function NullIf(s: string): Option<string> {
    if s == "" then None else Some(s)
  }

  /** PostgreSQL's coalesce(text, ''). */
  function Coalesce(s: Option<string>): string {
    if s.Some? then s.value else ""
  }

  /** The identifier supply never runs dry: some non-empty identifier is outside every finite set. */
  lemma FreshId(issued: set<Id>) returns (id: Id)
    ensures id !in issued && id != ""
  {
    var n := LongerThanAll(issued);
    id := seq(n + 1, i => 'a');
  }

  lemma LongerThanAll(ids: set<Id>) returns (n: nat)
    ensures forall id :: id in ids ==> |id| <= n
  {
    if ids == {} {
      n := 0;
    } else {
      var id :| id in ids;
      var m := LongerThanAll(ids - {id});
      n := if m < |id| then |id| else m;
    }
  }
}
