/** The permission gate every mutating handler consults first. */
module Permissions {
  import opened Types

  /** Owners and editors may change the workspace; viewers may only read. */
  function CanEdit(role: Role): (r: bool)
    ensures r <==> role != Viewer
  {
    match role
    case Owner => true
    case Editor => true
    case Viewer => false
  }
}
