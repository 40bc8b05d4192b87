/** What several parts share. */
module Common {

  datatype Option<+T> = None | Some(value: T)

  /** The string without the characters to drop at its ends. */
  function Trim(s: string, drop: char -> bool): string
    decreases |s|
  {
    if s == "" then ""
    else if drop(s[0]) then Trim(s[1..], drop)
    else if drop(s[|s| - 1]) then Trim(s[..|s| - 1], drop)
    else s
  }
}
