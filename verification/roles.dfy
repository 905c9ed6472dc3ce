/** The role identifiers the form offers. The server accepts any non-empty
    string as a role and only uses it in the prompt's first line.
 */
module Roles {
  import Prompt

  datatype Role = Frontend | Backend | Fullstack | DataMl | Opensource

  /** The identifier sent in the request body. */
  function RoleId(r: Role): string {
    match r
    case Frontend => "frontend"
    case Backend => "backend"
    case Fullstack => "fullstack"
    case DataMl => "data-ml"
    case Opensource => "opensource"
  }

  /** How each offered role reads in the prompt: only `data-ml` changes. */
  lemma RoleLabels(r: Role)
    ensures Prompt.RoleLabel(RoleId(r)) == if r == DataMl then "data ml" else RoleId(r)
  {
    if r == DataMl {
      var id := RoleId(r);
      assert id[4] == '-' && '-' !in id[..4];
      assert id[..4] + " " + id[5..] == "data ml";
    } else {
      assert '-' !in RoleId(r);
    }
  }
}
