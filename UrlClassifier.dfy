/// src/services/urlClassifier.ts: asking the oracle which URLs are property
/// detail pages, 50 URLs per request. Each request's prompt groups its URLs by
/// agency and numbers them; a request that fails contributes nothing.
module UrlClassifier {
  import opened Wrappers
  import opened Text
  import opened Oracle
  import opened Config

  /// `BATCH_SIZE` (line 30).
  const BatchSize: nat := 50

  /// Lines 11-15. `confidence` is a JSON number.
  datatype UrlClassification = UrlClassification(url: string, isListingDetail: bool, confidence: real)

  /// Lines 17-21.
  datatype UrlWithAgency = UrlWithAgency(url: string, agency: string, agencyUrl: string)

  /// One entry of the `agencyGroups` map (lines 84-87).
  datatype AgencyGroup = AgencyGroup(agency: string, agencyUrl: string, urls: seq<string>)

  /// What the prompt of lines 95-137 carries besides fixed wording: the
  /// "AGENCY CONTEXTS" lines and the "URLS TO CLASSIFY" lines.
  datatype BatchPrompt = BatchPrompt(agencyContexts: string, urlsToClassify: string)

  function Min(a: nat, b: nat): nat {
    if a <= b then a else b
  }

  // ---------------------------------------------------------------------
  // Batching (lines 30-37).

  /// The slices `urlsWithAgency.slice(i, i + BATCH_SIZE)` for `i` = `from`,
  /// `from + 50`, ... below the length.
  function BatchesFrom(s: seq<UrlWithAgency>, from: nat): seq<seq<UrlWithAgency>>
    decreases |s| - from
  {
    if from >= |s| then []
    else [s[from..Min(from + BatchSize, |s|)]] + BatchesFrom(s, from + BatchSize)
  }

  function Batches(s: seq<UrlWithAgency>): seq<seq<UrlWithAgency>> {
    BatchesFrom(s, 0)
  }

  function Concat<T>(ss: seq<seq<T>>): seq<T> {
    if ss == [] then [] else ss[0] + Concat(ss[1..])
  }

  /// The batches are ceil(n/50) consecutive non-empty slices of at most 50
  /// items, and together they are the input.
  lemma BatchesPartition(s: seq<UrlWithAgency>)
    ensures Concat(Batches(s)) == s
    ensures |Batches(s)| == (|s| + BatchSize - 1) / BatchSize
    ensures forall k :: 0 <= k < |Batches(s)| ==> 0 < |Batches(s)[k]| <= BatchSize
  {
    BatchesFromPartition(s, 0);
  }

  lemma {:induction false} BatchesFromPartition(s: seq<UrlWithAgency>, from: nat)
    requires from <= |s|
    ensures Concat(BatchesFrom(s, from)) == s[from..]
    ensures |BatchesFrom(s, from)| == (|s| - from + BatchSize - 1) / BatchSize
    ensures forall k :: 0 <= k < |BatchesFrom(s, from)| ==> 0 < |BatchesFrom(s, from)[k]| <= BatchSize
    decreases |s| - from
  {
    if from < |s| {
      var bs := BatchesFrom(s, from);
      var head := s[from..Min(from + BatchSize, |s|)];
      if from + BatchSize <= |s| {
        BatchesFromPartition(s, from + BatchSize);
        assert s[from..] == head + s[from + BatchSize..];
      } else {
        assert BatchesFrom(s, from + BatchSize) == [];
        assert head == s[from..];
      }
      assert bs[1..] == BatchesFrom(s, from + BatchSize);
    }
  }

  // ---------------------------------------------------------------------
  // Grouping by agency (lines 83-93).

  /// The agency of every item, in input order.
  function Names(s: seq<UrlWithAgency>): (r: seq<string>)
    ensures |r| == |s| && forall i :: 0 <= i < |s| ==> r[i] == s[i].agency
  {
    seq(|s|, i requires 0 <= i < |s| => s[i].agency)
  }

  /// The URLs of `agency`'s items, in input order.
  function UrlsFor(s: seq<UrlWithAgency>, agency: string): (r: seq<string>)
    ensures agency !in Names(s) ==> r == []
  {
    if s == [] then []
    else
      var p, x := s[..|s| - 1], s[|s| - 1];
      assert Names(s) == Names(p) + [x.agency];
      UrlsFor(p, agency) + (if x.agency == agency then [x.url] else [])
  }

  /// The `agencyUrl` of `agency`'s first item.
  function AgencyUrlFor(s: seq<UrlWithAgency>, agency: string): (r: Option<string>)
    ensures r.Some? <==> agency in Names(s)
  {
    if s == [] then None
    else
      var p, x := s[..|s| - 1], s[|s| - 1];
      assert Names(s) == Names(p) + [x.agency];
      var before := AgencyUrlFor(p, agency);
      if before.Some? then before
      else if x.agency == agency then Some(x.agencyUrl)
      else None
  }

  /// The entry that the `forEach` leaves for `agency`.
  function Group(s: seq<UrlWithAgency>, agency: string): AgencyGroup {
    AgencyGroup(agency, AgencyUrlFor(s, agency).GetOr(""), UrlsFor(s, agency))
  }

  function GroupsOf(s: seq<UrlWithAgency>, order: seq<string>): (gs: seq<AgencyGroup>)
    ensures |gs| == |order| && forall k :: 0 <= k < |order| ==> gs[k] == Group(s, order[k])
  {
    if order == [] then [] else GroupsOf(s, order[..|order| - 1]) + [Group(s, order[|order| - 1])]
  }

  /// `Array.from(agencyGroups.entries())`: a Map iterates in insertion order,
  /// which is the order of the agencies' first appearance.
  function Grouping(s: seq<UrlWithAgency>): seq<AgencyGroup> {
    GroupsOf(s, Dedup(Names(s)))
  }

  /// The map and its insertion order after the first `i` items.
  ghost predicate GroupedSoFar(batch: seq<UrlWithAgency>, i: nat, order: seq<string>, agencyGroups: map<string, AgencyGroup>)
    requires i <= |batch|
  {
    && order == Dedup(Names(batch[..i]))
    && (forall a :: a in agencyGroups <==> a in order)
    && (forall a :: a in agencyGroups ==> agencyGroups[a] == Group(batch[..i], a))
  }

  /// The `forEach` of lines 88-93 over a map and its insertion order, then
  /// the map's entries in that order.
  method GroupByAgency(batch: seq<UrlWithAgency>) returns (groups: seq<AgencyGroup>)
    ensures groups == Grouping(batch)
  {
    var order: seq<string> := [];
    var agencyGroups: map<string, AgencyGroup> := map[];
    for i := 0 to |batch|
      invariant GroupedSoFar(batch, i, order, agencyGroups)
    {
      var item := batch[i];
      ghost var order0, groups0 := order, agencyGroups;
      if item.agency !in agencyGroups {
        agencyGroups := agencyGroups[item.agency := AgencyGroup(item.agency, item.agencyUrl, [])];
        order := order + [item.agency];
      }
      var g := agencyGroups[item.agency];
      agencyGroups := agencyGroups[item.agency := g.(urls := g.urls + [item.url])];
      GroupedStep(batch, i, order0, groups0);
    }
    assert batch[..|batch|] == batch;
    groups := [];
    for k := 0 to |order|
      invariant groups == GroupsOf(batch, order[..k])
    {
      assert order[..k + 1][..k] == order[..k];
      groups := groups + [agencyGroups[order[k]]];
    }
    assert order[..|order|] == order;
  }

  /// One pass of the `forEach` keeps `GroupedSoFar`.
  lemma GroupedStep(batch: seq<UrlWithAgency>, i: nat, order: seq<string>, agencyGroups: map<string, AgencyGroup>)
    requires i < |batch| && GroupedSoFar(batch, i, order, agencyGroups)
    ensures var x := batch[i];
      var m1 := if x.agency !in agencyGroups then agencyGroups[x.agency := AgencyGroup(x.agency, x.agencyUrl, [])] else agencyGroups;
      var o1 := if x.agency !in agencyGroups then order + [x.agency] else order;
      GroupedSoFar(batch, i + 1, o1, m1[x.agency := m1[x.agency].(urls := m1[x.agency].urls + [x.url])])
  {
    if batch[i].agency in agencyGroups {
      GroupedStepKnown(batch, i, order, agencyGroups);
    } else {
      GroupedStepNew(batch, i, order, agencyGroups);
    }
  }

  /// An item of an agency already seen joins that agency's group.
  lemma GroupedStepKnown(batch: seq<UrlWithAgency>, i: nat, order: seq<string>, agencyGroups: map<string, AgencyGroup>)
    requires i < |batch| && GroupedSoFar(batch, i, order, agencyGroups) && batch[i].agency in agencyGroups
    ensures var x := batch[i];
      GroupedSoFar(batch, i + 1, order, agencyGroups[x.agency := agencyGroups[x.agency].(urls := agencyGroups[x.agency].urls + [x.url])])
  {
    GroupingStep(batch, i);
    var x := batch[i];
    assert x.agency in Names(batch[..i]);
    var m := agencyGroups[x.agency := agencyGroups[x.agency].(urls := agencyGroups[x.agency].urls + [x.url])];
    forall a | a in m ensures m[a] == Group(batch[..i + 1], a) {
      if a != x.agency {
        assert m[a] == agencyGroups[a];
      }
    }
    GroupedSoFarIntro(batch, i + 1, order, m);
  }

  /// The first item of an agency opens a new group at the end of the order.
  lemma GroupedStepNew(batch: seq<UrlWithAgency>, i: nat, order: seq<string>, agencyGroups: map<string, AgencyGroup>)
    requires i < |batch| && GroupedSoFar(batch, i, order, agencyGroups) && batch[i].agency !in agencyGroups
    ensures var x := batch[i];
      var m1 := agencyGroups[x.agency := AgencyGroup(x.agency, x.agencyUrl, [])];
      GroupedSoFar(batch, i + 1, order + [x.agency], m1[x.agency := m1[x.agency].(urls := m1[x.agency].urls + [x.url])])
  {
    GroupingStep(batch, i);
    var x := batch[i];
    assert x.agency !in Names(batch[..i]);
    var m1 := agencyGroups[x.agency := AgencyGroup(x.agency, x.agencyUrl, [])];
    var m := m1[x.agency := m1[x.agency].(urls := m1[x.agency].urls + [x.url])];
    assert forall a :: a in m <==> a in order + [x.agency];
    forall a | a in m ensures m[a] == Group(batch[..i + 1], a) {
      if a != x.agency {
        assert m[a] == agencyGroups[a];
      }
    }
    GroupedSoFarIntro(batch, i + 1, order + [x.agency], m);
  }

  lemma GroupedSoFarIntro(batch: seq<UrlWithAgency>, i: nat, order: seq<string>, agencyGroups: map<string, AgencyGroup>)
    requires i <= |batch| && order == Dedup(Names(batch[..i]))
    requires forall a :: a in agencyGroups <==> a in order
    requires forall a :: a in agencyGroups ==> agencyGroups[a] == Group(batch[..i], a)
    ensures GroupedSoFar(batch, i, order, agencyGroups)
  {
  }

  /// What one more item does to the order and to every entry.
  lemma GroupingStep(batch: seq<UrlWithAgency>, i: nat)
    requires i < |batch|
    ensures var p, x := batch[..i], batch[i];
      Dedup(Names(batch[..i + 1])) == if x.agency in Dedup(Names(p)) then Dedup(Names(p)) else Dedup(Names(p)) + [x.agency]
    ensures var p, x := batch[..i], batch[i];
      forall a :: Group(batch[..i + 1], a) ==
        if a != x.agency then Group(p, a)
        else if a in Names(p) then Group(p, a).(urls := Group(p, a).urls + [x.url])
        else AgencyGroup(a, x.agencyUrl, [x.url])
  {
    var s := batch[..i + 1];
    assert s[..|s| - 1] == batch[..i];
    assert Names(s)[..|s| - 1] == Names(batch[..i]);
  }

  /// The sum of the group sizes.
  function TotalUrls(gs: seq<AgencyGroup>): nat {
    if gs == [] then 0 else TotalUrls(gs[..|gs| - 1]) + |gs[|gs| - 1].urls|
  }

  /// Every item lands in exactly one group: the group sizes add up to the
  /// batch size.
  lemma {:induction false} GroupSizesSum(s: seq<UrlWithAgency>)
    ensures TotalUrls(Grouping(s)) == |s|
  {
    if s != [] {
      var p, x := s[..|s| - 1], s[|s| - 1];
      GroupSizesSum(p);
      assert s == p + [x];
      assert Names(s) == Names(p) + [x.agency];
      assert Names(s)[..|s| - 1] == Names(p);
      var d := Dedup(Names(p));
      GroupsOfStep(p, x, d);
      if x.agency !in d {
        var o := d + [x.agency];
        assert o[..|o| - 1] == d;
        var gs := GroupsOf(s, o);
        assert gs[..|gs| - 1] == GroupsOf(s, d);
      }
    }
  }

  /// One more item adds one URL to the groups of `order` when its agency is
  /// among them, and none otherwise.
  lemma {:induction false} GroupsOfStep(p: seq<UrlWithAgency>, x: UrlWithAgency, order: seq<string>)
    requires NoDups(order)
    ensures TotalUrls(GroupsOf(p + [x], order)) == TotalUrls(GroupsOf(p, order)) + (if x.agency in order then 1 else 0)
  {
    if order != [] {
      var o, b := order[..|order| - 1], order[|order| - 1];
      GroupsOfStep(p, x, o);
      assert order == o + [b];
      var s := p + [x];
      assert s[..|s| - 1] == p;
      var gs, hs := GroupsOf(s, order), GroupsOf(p, order);
      assert gs[..|gs| - 1] == GroupsOf(s, o);
      assert hs[..|hs| - 1] == GroupsOf(p, o);
      assert x.agency == b ==> x.agency !in o;
    }
  }

  /// The groups list each agency of the batch once, and nothing else, in the
  /// order of the agencies' first appearance.
  lemma GroupingOrder(s: seq<UrlWithAgency>)
    ensures forall j, k :: 0 <= j < k < |Grouping(s)| ==> Grouping(s)[j].agency != Grouping(s)[k].agency
    ensures forall a :: a in Names(s) <==> exists k :: 0 <= k < |Grouping(s)| && Grouping(s)[k].agency == a
    ensures forall j, k :: 0 <= j < k < |Grouping(s)| ==>
      FirstIndex(Names(s), Grouping(s)[j].agency) < FirstIndex(Names(s), Grouping(s)[k].agency)
  {
    var d := Dedup(Names(s));
    forall a | a in Names(s) ensures exists k :: 0 <= k < |Grouping(s)| && Grouping(s)[k].agency == a {
      var k :| 0 <= k < |d| && d[k] == a;
      assert Grouping(s)[k].agency == a;
    }
    forall j, k | 0 <= j < k < |Grouping(s)|
      ensures FirstIndex(Names(s), Grouping(s)[j].agency) < FirstIndex(Names(s), Grouping(s)[k].agency)
    {
      DedupKeepsFirstOccurrenceOrder(Names(s), j, k);
    }
  }

  /// A group's `agencyUrl` is that of the agency's first item.
  lemma {:induction false} AgencyUrlIsFirst(s: seq<UrlWithAgency>, agency: string)
    requires agency in Names(s)
    ensures AgencyUrlFor(s, agency) == Some(s[FirstIndex(Names(s), agency)].agencyUrl)
  {
    var p, x := s[..|s| - 1], s[|s| - 1];
    assert Names(s) == Names(p) + [x.agency];
    if agency in Names(p) {
      AgencyUrlIsFirst(p, agency);
      FirstIndexOfPrefix(Names(p), [x.agency], agency);
    } else {
      assert FirstIndex(Names(s), agency) == |p|;
    }
  }

  /// A group's URLs are the URLs of the agency's items, in input order.
  lemma {:induction false} GroupUrls(s: seq<UrlWithAgency>, agency: string)
    ensures forall u :: u in UrlsFor(s, agency) <==> exists i :: 0 <= i < |s| && s[i].agency == agency && s[i].url == u
    ensures |UrlsFor(s, agency)| <= |s|
  {
    if s != [] {
      var p := s[..|s| - 1];
      GroupUrls(p, agency);
      assert forall i :: 0 <= i < |p| ==> p[i] == s[i];
    }
  }

  // ---------------------------------------------------------------------
  // The prompt (lines 114-125).

  /// `${agency}: ${agencyUrl} (${urls.length} URLs)`.
  function ContextLine(g: AgencyGroup): string {
    g.agency + ": " + g.agencyUrl + " (" + Decimal(|g.urls|) + " URLs)"
  }

  /// `${index + 1}. [${item.agency}] ${item.url}`.
  function ItemLine(index: nat, item: UrlWithAgency): string {
    Decimal(index + 1) + ". [" + item.agency + "] " + item.url
  }

  function PromptOf(batch: seq<UrlWithAgency>): BatchPrompt {
    var gs := Grouping(batch);
    BatchPrompt(
      Join(seq(|gs|, k requires 0 <= k < |gs| => ContextLine(gs[k])), "\n"),
      Join(seq(|batch|, k requires 0 <= k < |batch| => ItemLine(k, batch[k])), "\n"))
  }

  /// The items are numbered 1..n in input order: `parseInt` reads `k + 1` off
  /// the `k`-th line, which ends with the `k`-th URL.
  lemma ItemNumbering(batch: seq<UrlWithAgency>, k: nat)
    requires k < |batch|
    ensures ParseInt(ItemLine(k, batch[k])) == Some(k + 1)
    ensures EndsWith(ItemLine(k, batch[k]), batch[k].url)
  {
    var rest := ". [" + batch[k].agency + "] " + batch[k].url;
    assert ItemLine(k, batch[k]) == Decimal(k + 1) + rest;
    ParseIntLeadingDecimal(k + 1, rest);
    var l := ItemLine(k, batch[k]);
    assert l[|l| - |batch[k].url|..] == batch[k].url;
  }

  // ---------------------------------------------------------------------
  // Classification (lines 23-71 and 139-174).

  /// `classifySingleBatch(batch)`: the parsed array, or the error it throws.
  /// `parseJson` is `JSON.parse` read as an array of classifications.
  function ClassifySingleBatch(batch: seq<UrlWithAgency>, oracle: BatchPrompt -> Reply,
                               parseJson: string -> Option<seq<UrlClassification>>): Result<seq<UrlClassification>>
  {
    var reply := oracle(PromptOf(batch));
    match TrimmedContent(reply)
    case None => Err(if reply.Failed? then reply.message else NoResponse)
    case Some(content) =>
      match parseJson(StripFences(content))
      case None => Err("JSON parse error")
      case Some(classifications) => Ok(classifications)
  }

  /// A batch succeeds exactly when the oracle answers with non-blank content
  /// whose fence-stripped text parses, and then its output is that parse; an
  /// answer without content fails with `NoResponse`.
  lemma BatchOutcome(batch: seq<UrlWithAgency>, oracle: BatchPrompt -> Reply,
                     parseJson: string -> Option<seq<UrlClassification>>)
    ensures var content := TrimmedContent(oracle(PromptOf(batch)));
      var r := ClassifySingleBatch(batch, oracle, parseJson);
      (r.Ok? <==> content.Some? && parseJson(StripFences(content.value)).Some?)
      && (r.Ok? ==> r.value == parseJson(StripFences(content.value)).value)
    ensures var reply := oracle(PromptOf(batch));
      reply.Answered? && TrimmedContent(reply).None? ==>
        ClassifySingleBatch(batch, oracle, parseJson) == Err(NoResponse)
  {
  }

  /// What `allClassifications.push(...)` receives for one batch: its output,
  /// or nothing when it threw.
  function Outcome<C>(r: Result<seq<C>>): seq<C> {
    if r.Ok? then r.value else []
  }

  /// `classifySingleBatch` with the oracle and the parser fixed.
  function BatchClassifier(oracle: BatchPrompt -> Reply, parseJson: string -> Option<seq<UrlClassification>>)
    : seq<UrlWithAgency> -> Result<seq<UrlClassification>>
  {
    batch => ClassifySingleBatch(batch, oracle, parseJson)
  }

  /// The outputs of the batches under `classify`, concatenated in order.
  function Collected<B, C>(bs: seq<B>, classify: B -> Result<seq<C>>): seq<C>
  {
    if bs == [] then [] else Outcome(classify(bs[0])) + Collected(bs[1..], classify)
  }

  /// `classifyUrlsBatch(urlsWithAgency)` (lines 23-71).
  method ClassifyUrlsBatch(urlsWithAgency: seq<UrlWithAgency>, oracle: BatchPrompt -> Reply,
                           parseJson: string -> Option<seq<UrlClassification>>) returns (allClassifications: seq<UrlClassification>)
    ensures allClassifications == Collected(Batches(urlsWithAgency), BatchClassifier(oracle, parseJson))
    ensures urlsWithAgency == [] ==> allClassifications == []
  {
    if |urlsWithAgency| == 0 {
      return [];
    }
    allClassifications := ClassifyInBatches(urlsWithAgency, BatchClassifier(oracle, parseJson));
  }

  /// The loop of lines 34-63, for any way of classifying one batch.
  method ClassifyInBatches(urlsWithAgency: seq<UrlWithAgency>, classify: seq<UrlWithAgency> -> Result<seq<UrlClassification>>)
    returns (allClassifications: seq<UrlClassification>)
    ensures allClassifications == Collected(Batches(urlsWithAgency), classify)
  {
    allClassifications := [];
    var i := 0;
    while i < |urlsWithAgency|
      invariant allClassifications + Collected(BatchesFrom(urlsWithAgency, i), classify) == Collected(Batches(urlsWithAgency), classify)
      decreases |urlsWithAgency| - i
    {
      var batch := urlsWithAgency[i..Min(i + BatchSize, |urlsWithAgency|)];
      CollectedFromStep(urlsWithAgency, i, classify);
      ghost var before := allClassifications;
      var result := classify(batch);
      if result.Ok? {
        allClassifications := allClassifications + result.value;
      } else {
        assert before + Outcome(result) == before;
      }
      AppendAssoc(before, Outcome(result), Collected(BatchesFrom(urlsWithAgency, i + BatchSize), classify));
      i := i + BatchSize;
    }
  }

  /// One pass of the loop: the batch at `from`, then the rest.
  lemma CollectedFromStep(s: seq<UrlWithAgency>, from: nat, classify: seq<UrlWithAgency> -> Result<seq<UrlClassification>>)
    requires from < |s|
    ensures Collected(BatchesFrom(s, from), classify)
      == Outcome(classify(s[from..Min(from + BatchSize, |s|)])) + Collected(BatchesFrom(s, from + BatchSize), classify)
  {
    var bs := BatchesFrom(s, from);
    assert bs[0] == s[from..Min(from + BatchSize, |s|)] && bs[1..] == BatchesFrom(s, from + BatchSize);
  }

  lemma {:induction false} CollectedAppend<B, C>(xs: seq<B>, ys: seq<B>, classify: B -> Result<seq<C>>)
    ensures Collected(xs + ys, classify) == Collected(xs, classify) + Collected(ys, classify)
  {
    if xs == [] {
      assert xs + ys == ys;
    } else {
      CollectedAppend(xs[1..], ys, classify);
      CollectedAppendStep(xs, ys, classify);
    }
  }

  /// The inductive step of `CollectedAppend`: the first batch moves out in front.
  lemma CollectedAppendStep<B, C>(xs: seq<B>, ys: seq<B>, classify: B -> Result<seq<C>>)
    requires xs != []
    requires Collected(xs[1..] + ys, classify) == Collected(xs[1..], classify) + Collected(ys, classify)
    ensures Collected(xs + ys, classify) == Collected(xs, classify) + Collected(ys, classify)
  {
    var o, c1, c2 := Outcome(classify(xs[0])), Collected(xs[1..], classify), Collected(ys, classify);
    calc {
      Collected(xs + ys, classify);
    == { TailOfAppend(xs, ys); }
      o + Collected(xs[1..] + ys, classify);
    ==
      o + (c1 + c2);
    == { AppendAssoc(o, c1, c2); }
      (o + c1) + c2;
    ==
      Collected(xs, classify) + c2;
    }
  }

  /// A batch that fails adds nothing, and the batches after it are still
  /// classified.
  lemma FailedBatchSkipped<B, C>(bs: seq<B>, k: nat, classify: B -> Result<seq<C>>)
    requires k < |bs| && classify(bs[k]).Err?
    ensures Collected(bs, classify) == Collected(bs[..k], classify) + Collected(bs[k + 1..], classify)
  {
    assert bs == bs[..k] + ([bs[k]] + bs[k + 1..]);
    CollectedAppend(bs[..k], [bs[k]] + bs[k + 1..], classify);
    assert ([bs[k]] + bs[k + 1..])[1..] == bs[k + 1..];
  }

  /// A classification is in the result exactly when some batch succeeded
  /// and its output holds it.
  lemma {:induction false} CollectedMembers(bs: seq<seq<UrlWithAgency>>, classify: seq<UrlWithAgency> -> Result<seq<UrlClassification>>,
                                            c: UrlClassification)
    ensures c in Collected(bs, classify) <==>
      exists k :: 0 <= k < |bs| && classify(bs[k]).Ok? && c in classify(bs[k]).value
  {
    if bs != [] {
      CollectedMembers(bs[1..], classify, c);
      assert forall k :: 0 < k < |bs| ==> bs[k] == bs[1..][k - 1];
      if c in Collected(bs[1..], classify) {
        var k :| 0 <= k < |bs[1..]| && classify(bs[1..][k]).Ok? && c in classify(bs[1..][k]).value;
        assert bs[k + 1] == bs[1..][k];
      }
    }
  }
}
