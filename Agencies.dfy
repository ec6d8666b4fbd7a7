/// The shape both URL stores share with the main cycle: a
/// `Record<string, string[]>` from agency name to listing URLs.
module Agencies {
  type UrlsByAgency = map<string, seq<string>>

  /// `urls[agency] || []`: the list stored for `agency`, or the empty one.
  function History(m: UrlsByAgency, agency: string): (r: seq<string>)
    ensures agency in m ==> r == m[agency]
    ensures agency !in m ==> r == []
  {
    if agency in m then m[agency] else []
  }
}
