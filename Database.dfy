/// src/services/database.ts: the same per-agency URL history kept as rows of a
/// `scrapedUrl` table with a unique key on (url, agency). Loading groups the
/// rows by agency; saving flattens the argument into records and upserts each.
module Database {
  import opened Text
  import opened Agencies

  datatype UrlRecord = UrlRecord(url: string, agency: string)

  /// The URLs of the records of `agency`, in record order: the reference
  /// definition of one group.
  function UrlsOf(rs: seq<UrlRecord>, agency: string): (r: seq<string>)
    ensures |r| <= |rs|
  {
    if rs == [] then []
    else
      var last := rs[|rs| - 1];
      UrlsOf(rs[..|rs| - 1], agency) + (if last.agency == agency then [last.url] else [])
  }

  /// The `urlsByAgency` object of lines 16-23 after the `forEach` over `rs`.
  function Grouped(rs: seq<UrlRecord>): UrlsByAgency {
    if rs == [] then map[]
    else
      var m := Grouped(rs[..|rs| - 1]);
      var r := rs[|rs| - 1];
      m[r.agency := History(m, r.agency) + [r.url]]
  }

  /// The records pushed for one agency by the inner loop of lines 45-50.
  function Block(agency: string, urls: seq<string>): (r: seq<UrlRecord>)
    ensures |r| == |urls|
    ensures forall i :: 0 <= i < |urls| ==> r[i] == UrlRecord(urls[i], agency)
  {
    seq(|urls|, i requires 0 <= i < |urls| => UrlRecord(urls[i], agency))
  }

  /// The map without its agencies whose list is empty.
  function NonEmpty(m: UrlsByAgency): (r: UrlsByAgency)
    ensures forall a :: a in r <==> a in m && m[a] != []
  {
    map a | a in m && m[a] != [] :: m[a]
  }

  /// Some agency of a non-empty map: the order in which `Object.entries`
  /// visits the agencies is not modelled.
  ghost function PickAgency(m: UrlsByAgency): (a: string)
    requires m != map[]
    ensures a in m
  {
    var a :| a in m; a
  }

  /// The number of URLs in all lists of `m`.
  ghost function TotalLength(m: UrlsByAgency): nat
    decreases |m.Keys|
  {
    if m == map[] then 0
    else
      var a := PickAgency(m);
      assert |(m - {a}).Keys| < |m.Keys| by {
        assert (m - {a}).Keys == m.Keys - {a};
      }
      |m[a]| + TotalLength(m - {a})
  }

  /// The total does not depend on which agency is taken first.
  lemma {:induction false} TotalLengthRemove(m: UrlsByAgency, a: string)
    requires a in m
    ensures TotalLength(m) == |m[a]| + TotalLength(m - {a})
    decreases |m.Keys|
  {
    var b := PickAgency(m);
    assert (m - {b}).Keys == m.Keys - {b};
    if b != a {
      assert (m - {a}).Keys == m.Keys - {a};
      TotalLengthRemove(m - {b}, a);
      TotalLengthRemove(m - {a}, b);
      assert (m - {b}) - {a} == (m - {a}) - {b};
    }
  }

  lemma UrlsOfAppend(rs: seq<UrlRecord>, ts: seq<UrlRecord>, agency: string)
    ensures UrlsOf(rs + ts, agency) == UrlsOf(rs, agency) + UrlsOf(ts, agency)
    decreases |ts|
  {
    if ts == [] {
      assert rs + ts == rs;
    } else {
      UrlsOfAppend(rs, ts[..|ts| - 1], agency);
      assert (rs + ts)[..|rs + ts| - 1] == rs + ts[..|ts| - 1];
    }
  }

  lemma {:induction false} UrlsOfBlock(b: string, urls: seq<string>, agency: string)
    ensures UrlsOf(Block(b, urls), agency) == if b == agency then urls else []
    decreases |urls|
  {
    if urls != [] {
      UrlsOfBlock(b, urls[..|urls| - 1], agency);
      assert Block(b, urls)[..|urls| - 1] == Block(b, urls[..|urls| - 1]);
    }
  }

  /// The table: rows in insertion order, no (url, agency) pair twice.
  class ScrapedUrlTable {
    var rows: seq<UrlRecord>

    ghost predicate Valid()
      reads this
    {
      NoDups(rows)
    }

    constructor()
      ensures rows == [] && Valid()
    {
      rows := [];
    }

    /// Lines 6-35. `reachable` says whether the query succeeds; a failure is
    /// logged and yields `{}`.
    method LoadScrapedUrls(reachable: bool) returns (urlsByAgency: UrlsByAgency)
      ensures reachable ==> urlsByAgency == Grouped(rows)
      ensures !reachable ==> urlsByAgency == map[]
    {
      urlsByAgency := map[];
      if !reachable {
        return;
      }
      var scrapedUrls := rows;
      var i := 0;
      while i < |scrapedUrls|
        invariant 0 <= i <= |scrapedUrls|
        invariant urlsByAgency == Grouped(scrapedUrls[..i])
      {
        var r := scrapedUrls[i];
        assert scrapedUrls[..i + 1][..i] == scrapedUrls[..i];
        if r.agency !in urlsByAgency {
          urlsByAgency := urlsByAgency[r.agency := []];
        }
        urlsByAgency := urlsByAgency[r.agency := urlsByAgency[r.agency] + [r.url]];
        i := i + 1;
      }
      assert scrapedUrls[..i] == scrapedUrls;
    }

    /// Lines 37-82. The upserts of lines 54-72 are separate requests sent
    /// together without a transaction: `accepts(x)` says whether the database
    /// commits the upsert of record `x`. An accepted upsert takes effect even
    /// when another one is rejected; a rejection is logged and not rethrown.
    method SaveScrapedUrls(urlsByAgency: UrlsByAgency, accepts: UrlRecord -> bool)
      requires Valid()
      modifies this
      ensures Valid()
      ensures exists records :: IsFlattening(urlsByAgency, records) && rows == Upserted(old(rows), Filter(accepts, records))
      ensures forall x :: x in rows <==> x in old(rows) || (accepts(x) && x.url in History(urlsByAgency, x.agency))
      ensures |old(rows)| <= |rows| && rows[..|old(rows)|] == old(rows)
      ensures (forall x :: accepts(x)) ==>
        exists records :: IsFlattening(urlsByAgency, records) && rows == Upserted(old(rows), records)
    {
      var urlRecords := FlattenRecords(urlsByAgency);
      var committed := Filter(accepts, urlRecords);
      if forall x :: accepts(x) {
        FilterKeepsAll(accepts, urlRecords);
      }
      FlattenedMembers(urlsByAgency, urlRecords);
      UpsertedKeepsNoDups(rows, committed);
      rows := Upserted(rows, committed);
    }
  }

  /// A flattening holds a record exactly for each URL listed under its agency.
  lemma FlattenedMembers(m: UrlsByAgency, records: seq<UrlRecord>)
    requires forall a :: UrlsOf(records, a) == History(m, a)
    ensures forall x :: x in records <==> x.url in History(m, x.agency)
  {
    forall x ensures x in records <==> x.url in History(m, x.agency) {
      UrlsOfMembers(records, x.agency, x.url);
    }
  }

  /// `records` lists, for every agency of `m`, that agency's URLs in order, and
  /// nothing else, in one line per list element.
  ghost predicate IsFlattening(m: UrlsByAgency, records: seq<UrlRecord>) {
    (forall a :: UrlsOf(records, a) == History(m, a)) && |records| == TotalLength(m)
  }

  /// Lines 42-51: the nested loops pushing one record per list element.
  method FlattenRecords(urlsByAgency: UrlsByAgency) returns (urlRecords: seq<UrlRecord>)
    ensures forall a :: UrlsOf(urlRecords, a) == History(urlsByAgency, a)
    ensures |urlRecords| == TotalLength(urlsByAgency)
  {
    urlRecords := [];
    var todo := urlsByAgency;
    while todo != map[]
      invariant todo.Keys <= urlsByAgency.Keys
      invariant forall a :: a in todo ==> todo[a] == urlsByAgency[a]
      invariant forall a :: UrlsOf(urlRecords, a) == if a in todo then [] else History(urlsByAgency, a)
      invariant |urlRecords| + TotalLength(todo) == TotalLength(urlsByAgency)
      decreases |todo.Keys|
    {
      var agency :| agency in todo;
      var before := urlRecords;
      urlRecords := PushBlock(urlRecords, agency, todo[agency]);
      FlattenAgencyDone(urlsByAgency, todo, before, agency);
      todo := todo - {agency};
    }
  }

  /// The inner loop of lines 45-50: one record per URL of one agency.
  method PushBlock(records: seq<UrlRecord>, agency: string, urls: seq<string>) returns (r: seq<UrlRecord>)
    ensures r == records + Block(agency, urls)
  {
    r := records;
    var j := 0;
    while j < |urls|
      invariant 0 <= j <= |urls|
      invariant r == records + Block(agency, urls[..j])
    {
      BlockGrows(agency, urls, j);
      r := r + [UrlRecord(urls[j], agency)];
      j := j + 1;
    }
    assert urls[..j] == urls;
  }

  /// One pass of the outer loop keeps its invariant: the agency's block is
  /// appended and the agency leaves the pending ones.
  lemma FlattenAgencyDone(m: UrlsByAgency, todo: UrlsByAgency, before: seq<UrlRecord>, agency: string)
    requires todo.Keys <= m.Keys && forall a :: a in todo ==> todo[a] == m[a]
    requires forall a :: UrlsOf(before, a) == if a in todo then [] else History(m, a)
    requires |before| + TotalLength(todo) == TotalLength(m)
    requires agency in todo
    ensures var rest, after := todo - {agency}, before + Block(agency, todo[agency]);
      (forall a :: UrlsOf(after, a) == if a in rest then [] else History(m, a))
      && |after| + TotalLength(rest) == TotalLength(m)
  {
    FlattenStep(before, agency, todo.Keys, m);
    TotalLengthRemove(todo, agency);
    assert (todo - {agency}).Keys == todo.Keys - {agency};
  }

  lemma BlockGrows(agency: string, urls: seq<string>, j: nat)
    requires j < |urls|
    ensures Block(agency, urls[..j + 1]) == Block(agency, urls[..j]) + [UrlRecord(urls[j], agency)]
  {
  }

  /// Appending the block of one pending agency moves it to the finished ones.
  lemma FlattenStep(before: seq<UrlRecord>, agency: string, todo: set<string>, m: UrlsByAgency)
    requires forall a :: UrlsOf(before, a) == if a in todo then [] else History(m, a)
    requires agency in todo && agency in m
    ensures forall a :: UrlsOf(before + Block(agency, m[agency]), a) == if a in todo - {agency} then [] else History(m, a)
  {
    forall a ensures UrlsOf(before + Block(agency, m[agency]), a) == if a in todo - {agency} then [] else History(m, a) {
      UrlsOfAppend(before, Block(agency, m[agency]), a);
      UrlsOfBlock(agency, m[agency], a);
    }
  }

  /// Lines 54-72 as a sequence of upserts keyed on (url, agency): an existing
  /// pair is only touched (its `scrapedAt`), a new one is appended.
  function Upserted(rows: seq<UrlRecord>, records: seq<UrlRecord>): (r: seq<UrlRecord>)
    ensures forall x :: x in r <==> x in rows || x in records
    ensures |rows| <= |r| && r[..|rows|] == rows
  {
    if records == [] then rows
    else
      var front := Upserted(rows, records[..|records| - 1]);
      var last := records[|records| - 1];
      assert forall x :: x in records <==> x in records[..|records| - 1] || x == last;
      if last in front then front else front + [last]
  }

  /// No pair is ever stored twice.
  lemma {:induction false} UpsertedKeepsNoDups(rows: seq<UrlRecord>, records: seq<UrlRecord>)
    requires NoDups(rows)
    ensures NoDups(Upserted(rows, records))
    decreases |records|
  {
    if records != [] {
      UpsertedKeepsNoDups(rows, records[..|records| - 1]);
    }
  }

  /// Loading after flattening gives back the saved map without its empty lists.
  lemma GroupFlattenRoundTrip(m: UrlsByAgency, records: seq<UrlRecord>)
    requires forall a :: UrlsOf(records, a) == History(m, a)
    ensures Grouped(records) == NonEmpty(m)
  {
    GroupedIsUrlsOf(records);
  }

  /// Each loaded group is exactly that agency's records' URLs in record order,
  /// and an agency is loaded iff it has a record.
  lemma {:induction false} GroupedIsUrlsOf(rs: seq<UrlRecord>)
    ensures forall a :: a in Grouped(rs) <==> UrlsOf(rs, a) != []
    ensures forall a :: a in Grouped(rs) ==> Grouped(rs)[a] == UrlsOf(rs, a)
    decreases |rs|
  {
    if rs != [] {
      GroupedIsUrlsOf(rs[..|rs| - 1]);
    }
  }

  /// A URL is in an agency's group iff a record pairs it with that agency.
  lemma {:induction false} UrlsOfMembers(rs: seq<UrlRecord>, agency: string, u: string)
    ensures u in UrlsOf(rs, agency) <==> UrlRecord(u, agency) in rs
    decreases |rs|
  {
    if rs != [] {
      UrlsOfMembers(rs[..|rs| - 1], agency, u);
      assert rs == rs[..|rs| - 1] + [rs[|rs| - 1]];
    }
  }

  /// Every loaded list is non-empty and holds exactly the agency's rows' URLs.
  lemma LoadedGroupsNonEmpty(rs: seq<UrlRecord>, agency: string)
    requires agency in Grouped(rs)
    ensures Grouped(rs)[agency] != []
    ensures forall u :: u in Grouped(rs)[agency] <==> UrlRecord(u, agency) in rs
  {
    GroupedIsUrlsOf(rs);
    forall u ensures u in Grouped(rs)[agency] <==> UrlRecord(u, agency) in rs {
      UrlsOfMembers(rs, agency, u);
    }
  }
}
