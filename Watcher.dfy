/// src/services/watcher.ts: the JSON file `data/scraped_urls.json` holding, per
/// agency name, every listing URL seen so far. Loading falls back to an empty
/// record; saving merges the argument into what is stored, but writes only the
/// argument's agencies.
module Watcher {
  import opened Wrappers
  import opened Text
  import opened Agencies

  /// What the file system holds at the store's path: no file, a file that
  /// cannot be read or parsed, or a parsed object whose `urls` member may be
  /// absent (or falsy).
  datatype StoreFile = Absent | Unreadable | Present(urls: Option<UrlsByAgency>)

  /// `loadScrapedUrls()`: the stored `urls` object, or `{}` on any fallback path.
  function Loaded(f: StoreFile): (m: UrlsByAgency)
    ensures f.Present? && f.urls.Some? ==> m == f.urls.value
    ensures !(f.Present? && f.urls.Some?) ==> m == map[]
  {
    match f
    case Present(Some(urls)) => urls
    case _ => map[]
  }

  /// The `mergedUrls` object of lines 30-50: for every agency of `incoming`,
  /// the stored list followed by the new one, each URL once at its first place.
  function Merged(existing: UrlsByAgency, incoming: UrlsByAgency): (r: UrlsByAgency)
    ensures r.Keys == incoming.Keys
    ensures forall a :: a in r ==> NoDups(r[a])
  {
    map a | a in incoming :: Dedup(History(existing, a) + incoming[a])
  }

  /// The file after a successful save of `incoming` over `f`.
  function SavedFile(f: StoreFile, incoming: UrlsByAgency): StoreFile {
    Present(Some(Merged(Loaded(f), incoming)))
  }

  /// The store itself: the only state is the file.
  class JsonStore {
    var file: StoreFile

    constructor(f: StoreFile)
      ensures file == f
    {
      file := f;
    }

    /// Lines 8-18: a guarded read that never fails.
    method LoadScrapedUrls() returns (urls: UrlsByAgency)
      ensures urls == Loaded(file)
    {
      if file.Present? && file.urls.Some? {
        urls := file.urls.value;
      } else {
        urls := map[];
      }
    }

    /// Lines 20-59. `writeOk` says whether creating the directory and writing
    /// the file succeed; when they do not, the error is swallowed and the file
    /// is left as it was. An unreadable file counts as empty and is replaced.
    method SaveScrapedUrls(newUrls: UrlsByAgency, writeOk: bool)
      modifies this
      ensures writeOk ==> file == SavedFile(old(file), newUrls)
      ensures !writeOk ==> file == old(file)
    {
      if !writeOk {
        return;
      }
      var existingUrls := LoadScrapedUrls();
      var mergedUrls: UrlsByAgency := map[];
      var todo := newUrls.Keys;
      while todo != {}
        invariant todo <= newUrls.Keys
        invariant mergedUrls.Keys == newUrls.Keys - todo
        invariant forall a :: a in mergedUrls ==> mergedUrls[a] == Dedup(History(existingUrls, a) + newUrls[a])
        decreases |todo|
      {
        var agency :| agency in todo;
        var existingAgencyUrls := if agency in existingUrls then existingUrls[agency] else [];
        var allAgencyUrls := existingAgencyUrls + newUrls[agency];
        mergedUrls := mergedUrls[agency := Dedup(allAgencyUrls)];
        todo := todo - {agency};
      }
      assert mergedUrls == Merged(existingUrls, newUrls);
      file := Present(Some(mergedUrls));
    }
  }

  /// Loading after a save gives exactly the saved agencies, each with its
  /// stored and its new URLs, each URL once.
  lemma SavedThenLoaded(f: StoreFile, incoming: UrlsByAgency)
    ensures Loaded(SavedFile(f, incoming)).Keys == incoming.Keys
    ensures forall a :: a in incoming ==> NoDups(Loaded(SavedFile(f, incoming))[a])
    ensures forall a, u :: a in incoming ==>
      (u in Loaded(SavedFile(f, incoming))[a] <==> u in History(Loaded(f), a) || u in incoming[a])
  {
    forall a | a in incoming {
      MergeKeepsHistory(Loaded(f), incoming, a);
    }
  }

  /// An agency supplied with no URLs keeps its stored list, deduplicated.
  lemma SavedWithoutNewUrls(f: StoreFile, incoming: UrlsByAgency, agency: string)
    requires agency in incoming && incoming[agency] == []
    ensures agency in Loaded(SavedFile(f, incoming))
    ensures Loaded(SavedFile(f, incoming))[agency] == Dedup(History(Loaded(f), agency))
  {
    var h := History(Loaded(f), agency);
    var m := Merged(Loaded(f), incoming);
    assert Loaded(SavedFile(f, incoming)) == m;
    assert m[agency] == Dedup(h + incoming[agency]);
    assert h + incoming[agency] == h;
  }

  /// Every stored and every new URL of a supplied agency is in its saved list,
  /// and nothing else is.
  lemma MergeKeepsHistory(existing: UrlsByAgency, incoming: UrlsByAgency, agency: string)
    requires agency in incoming
    ensures forall u :: u in Merged(existing, incoming)[agency] <==>
      u in History(existing, agency) || u in incoming[agency]
  {
  }

  /// A stored list without duplicates keeps its place at the head of the saved
  /// list; the new URLs follow it.
  lemma MergeExtendsHistory(existing: UrlsByAgency, incoming: UrlsByAgency, agency: string)
    requires agency in incoming && NoDups(History(existing, agency))
    ensures var saved := Merged(existing, incoming)[agency];
      |History(existing, agency)| <= |saved| && saved[..|History(existing, agency)|] == History(existing, agency)
  {
    DedupExtends(History(existing, agency), incoming[agency]);
  }

  /// `Dedup(s + t)` starts with `s` when `s` has no duplicates.
  lemma {:induction false} DedupExtends(s: seq<string>, t: seq<string>)
    requires NoDups(s)
    ensures |s| <= |Dedup(s + t)| && Dedup(s + t)[..|s|] == s
  {
    if t == [] {
      assert s + t == s;
      DedupOfNoDups(s);
    } else {
      var t' := t[..|t| - 1];
      DedupExtends(s, t');
      assert (s + t)[..|s + t| - 1] == s + t';
    }
  }

  /// An agency stored before but absent from the argument is dropped.
  lemma MergeDropsAbsent(existing: UrlsByAgency, incoming: UrlsByAgency, agency: string)
    requires agency in existing && agency !in incoming
    ensures agency !in Merged(existing, incoming)
  {
  }

  /// Merging the same argument again changes nothing.
  lemma MergeIdempotent(existing: UrlsByAgency, incoming: UrlsByAgency)
    ensures Merged(Merged(existing, incoming), incoming) == Merged(existing, incoming)
  {
    var once := Merged(existing, incoming);
    var twice := Merged(once, incoming);
    forall a | a in incoming ensures twice[a] == once[a] {
      MergeAgainAgency(existing, incoming, a);
    }
    SameEntries(twice, once);
  }

  /// Two maps with the same keys and the same value under each key are equal.
  lemma SameEntries<K, V>(m: map<K, V>, n: map<K, V>)
    requires m.Keys == n.Keys && forall k :: k in m ==> m[k] == n[k]
    ensures m == n
  {
  }

  lemma MergeAgainAgency(existing: UrlsByAgency, incoming: UrlsByAgency, a: string)
    requires a in incoming
    ensures var once := Merged(existing, incoming);
      Dedup(History(once, a) + incoming[a]) == once[a]
  {
    var once := Merged(existing, incoming);
    var l := once[a];
    assert History(once, a) == l;
    assert forall x :: x in incoming[a] ==> x in l;
    DedupAppendPresent(l, incoming[a]);
    DedupOfNoDups(l);
  }

  /// Saving the same argument twice leaves the same file as saving it once.
  lemma SaveTwiceIsSaveOnce(f: StoreFile, incoming: UrlsByAgency)
    ensures SavedFile(SavedFile(f, incoming), incoming) == SavedFile(f, incoming)
  {
    MergeIdempotent(Loaded(f), incoming);
  }

  /// Every list of `m` deduplicated.
  function DedupAll(m: UrlsByAgency): UrlsByAgency {
    map a | a in m :: Dedup(m[a])
  }

  /// An unreadable file is replaced by the argument alone, deduplicated.
  lemma SaveOverUnreadable(incoming: UrlsByAgency)
    ensures SavedFile(Unreadable, incoming) == Present(Some(DedupAll(incoming)))
  {
    MergeOverEmpty(incoming);
  }

  lemma MergeOverEmpty(incoming: UrlsByAgency)
    ensures Merged(map[], incoming) == DedupAll(incoming)
  {
    var m := Merged(map[], incoming);
    forall a | a in incoming ensures m[a] == Dedup(incoming[a]) {
      assert History(map[], a) + incoming[a] == incoming[a];
    }
  }
}
