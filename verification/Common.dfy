/** What several models share. */
module Common {
  datatype Option<T> = None | Some(value: T)

  const MAX_INT64 := 0x7fff_ffff_ffff_ffff

  /** strings.Split at a single character: never empty, "" gives one empty part. */
  function Split(s: string, separator: char): (r: seq<string>)
    ensures r != []
    decreases |s|
  {
    if s == "" then [""]
    else
      var rest := Split(s[1..], separator);
      if s[0] == separator then [""] + rest else [[s[0]] + rest[0]] + rest[1..]
  }
}
