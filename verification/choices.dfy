/**
 * The two enumerations stored as short codes in the database: the status of a
 * section and the channel a registration's alert was sent through.
 */
module Choices {
  /** Status of a section, stored as 'O', 'C', 'X' or '' (unlisted). */
  datatype Status = Open | Closed | Cancelled | Unlisted {
    function Code(): string {
      match this
      case Open => "O"
      case Closed => "C"
      case Cancelled => "X"
      case Unlisted => ""
    }
  }

  /** Who sent a registration's alert, stored as '', 'LEG', 'WEB', 'SERV' or 'ADM'. */
  datatype SentBy = Unsent | Legacy | Webhook | Service | Admin {
    function Code(): string {
      match this
      case Unsent => ""
      case Legacy => "LEG"
      case Webhook => "WEB"
      case Service => "SERV"
      case Admin => "ADM"
    }
  }
}
