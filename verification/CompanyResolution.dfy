/** How `core/openDart.ts` picks a company from the corp-code list, whatever the order of that list. */
module CompanyResolution {

  /** `stockCode` and `modifyDate` are empty when absent. */
  datatype Entry = Entry(corpCode: string, corpName: string, stockCode: string, modifyDate: string)

  /** `normalize` is `normalizeCorpName`. `collate` gives the sort key of a text: `localeCompare` compares sort keys,
      and every total order on texts has such keys. */
  datatype Locale = Locale(normalize: string -> string, collate: string -> real) {
    function Compare(left: string, right: string): int {
      if collate(left) < collate(right) then -1 else if collate(left) > collate(right) then 1 else 0
    }

    function Name(e: Entry): string {
      normalize(e.corpName)
    }
  }

  datatype Resolution =
    | Resolved(company: Entry)
    | Ambiguous(candidates: seq<Entry>)
    | NotFound

  /** `compareCorpCodeEntryPriority`: listed companies first, then the latest change, then the code. */
  function Priority(l: Locale, left: Entry, right: Entry): int {
    var leftListed, rightListed := if left.stockCode != "" then 1 else 0, if right.stockCode != "" then 1 else 0;
    if leftListed != rightListed then rightListed - leftListed
    else if l.Compare(right.modifyDate, left.modifyDate) != 0 then l.Compare(right.modifyDate, left.modifyDate)
    else l.Compare(left.corpCode, right.corpCode)
  }

  predicate Before(l: Locale, left: Entry, right: Entry) {
    Priority(l, left, right) < 0
  }

  /** The place of a name in the insertion-ordered map. */
  function IndexOfName(l: Locale, kept: seq<Entry>, name: string): (i: int)
    ensures -1 <= i < |kept|
    ensures i >= 0 ==> l.Name(kept[i]) == name
    ensures i < 0 ==> forall j :: 0 <= j < |kept| ==> l.Name(kept[j]) != name
  {
    if kept == [] then -1
    else if l.Name(kept[0]) == name then 0
    else
      var i := IndexOfName(l, kept[1..], name);
      if i < 0 then -1 else i + 1
  }

  function Consider(l: Locale, kept: seq<Entry>, e: Entry): seq<Entry> {
    var i := IndexOfName(l, kept, l.Name(e));
    if l.Name(e) == "" then kept
    else if i < 0 then kept + [e]
    else if Before(l, e, kept[i]) then kept[i := e]
    else kept
  }

  /** The values of the map after all entries. */
  function Collect(l: Locale, entries: seq<Entry>): seq<Entry> {
    if entries == [] then [] else Consider(l, Collect(l, entries[..|entries| - 1]), entries[|entries| - 1])
  }

  function Insert(l: Locale, sorted: seq<Entry>, e: Entry): seq<Entry> {
    if sorted == [] || !Before(l, e, sorted[|sorted| - 1]) then sorted + [e]
    else Insert(l, sorted[..|sorted| - 1], e) + [sorted[|sorted| - 1]]
  }

  /** The stable sort by priority. */
  function Sort(l: Locale, entries: seq<Entry>): seq<Entry> {
    if entries == [] then [] else Insert(l, Sort(l, entries[..|entries| - 1]), entries[|entries| - 1])
  }

  function Dedupe(l: Locale, entries: seq<Entry>): seq<Entry> {
    Sort(l, Collect(l, entries))
  }

  method DedupeCorpCodeEntries(l: Locale, entries: seq<Entry>) returns (deduped: seq<Entry>)
    ensures deduped == Dedupe(l, entries)
  {
    var kept := [];
    for i := 0 to |entries|
      invariant kept == Collect(l, entries[..i])
    {
      assert entries[..i + 1][..i] == entries[..i];
      var key := l.Name(entries[i]);
      if key != "" {
        var current := IndexOfName(l, kept, key);
        if current < 0 {
          kept := kept + [entries[i]];
        } else if Priority(l, entries[i], kept[current]) < 0 {
          kept := kept[current := entries[i]];
        }
      }
    }
    assert entries[..|entries|] == entries;
    deduped := Sort(l, kept);
  }

  predicate OccursAt(text: string, part: string, i: nat) {
    i + |part| <= |text| && text[i..i + |part|] == part
  }

  predicate Includes(text: string, part: string) {
    exists i :: 0 <= i <= |text| && OccursAt(text, part, i)
  }

  predicate IsMeaningfulFuzzyMatch(query: string, candidate: string) {
    var shorter := if |query| < |candidate| then |query| else |candidate|;
    var longer := if |query| < |candidate| then |candidate| else |query|;
    && shorter >= 2
    && (Includes(candidate, query) || Includes(query, candidate))
    && if shorter == 2 then longer <= 4 else 2 * shorter >= longer
  }

  function Filter(entries: seq<Entry>, keep: Entry -> bool): seq<Entry> {
    if entries == [] then []
    else Filter(entries[..|entries| - 1], keep) + if keep(entries[|entries| - 1]) then [entries[|entries| - 1]] else []
  }

  function FindCode(entries: seq<Entry>, corpCode: string): seq<Entry> {
    if entries == [] then []
    else if entries[0].corpCode == corpCode then [entries[0]]
    else FindCode(entries[1..], corpCode)
  }

  function FirstTen(entries: seq<Entry>): seq<Entry> {
    if |entries| <= 10 then entries else entries[..10]
  }

  /** What a non-empty list of matches amounts to. */
  function Choose(matches: seq<Entry>): Resolution {
    if |matches| == 1 then Resolved(matches[0]) else Ambiguous(FirstTen(matches))
  }

  /** `resolveCompanyCandidates`; `selected` is empty when no code is selected. */
  function Resolve(l: Locale, entries: seq<Entry>, companyName: string, selected: string): Resolution {
    var query := l.normalize(companyName);
    var chosen := if selected != "" then FindCode(entries, selected) else [];
    if query == "" then NotFound
    else if chosen != [] then Resolved(chosen[0])
    else
      var exact := Dedupe(l, Filter(entries, e => l.Name(e) == query));
      if exact != [] then Choose(exact)
      else
        var fuzzy := Dedupe(l, Filter(entries, e => IsMeaningfulFuzzyMatch(query, l.Name(e))));
        if fuzzy != [] then Choose(fuzzy) else NotFound
  }

  // ---- The order of entries ------------------------------------------------

  /** Different entries have codes with different sort keys. */
  ghost predicate DistinctCodes(l: Locale, entries: seq<Entry>) {
    forall a, b :: a in entries && b in entries && l.collate(a.corpCode) == l.collate(b.corpCode) ==> a == b
  }

  lemma BeforeIsOrder(l: Locale, a: Entry, b: Entry, c: Entry)
    ensures !Before(l, a, a)
    ensures Before(l, a, b) ==> !Before(l, b, a)
    ensures Before(l, a, b) && Before(l, b, c) ==> Before(l, a, c)
    ensures l.collate(a.corpCode) != l.collate(b.corpCode) ==> Before(l, a, b) || Before(l, b, a)
  {
  }

  ghost predicate StrictlySorted(l: Locale, entries: seq<Entry>) {
    forall i, j :: 0 <= i < j < |entries| ==> Before(l, entries[i], entries[j])
  }

  lemma {:induction false} InsertMembers(l: Locale, sorted: seq<Entry>, e: Entry)
    ensures forall x :: x in Insert(l, sorted, e) <==> x in sorted || x == e
  {
    hide Before;
    if sorted != [] && Before(l, e, sorted[|sorted| - 1]) {
      var n := |sorted| - 1;
      InsertMembers(l, sorted[..n], e);
      assert sorted == sorted[..n] + [sorted[n]];
    }
  }

  lemma {:induction false} InsertKeepsStrict(l: Locale, sorted: seq<Entry>, e: Entry)
    requires StrictlySorted(l, sorted)
    requires forall x :: x in sorted ==> Before(l, x, e) || Before(l, e, x)
    ensures StrictlySorted(l, Insert(l, sorted, e))
  {
    hide Before;
    if sorted != [] {
      var n := |sorted| - 1;
      assert sorted == sorted[..n] + [sorted[n]];
      assert sorted[n] in sorted;
      if Before(l, e, sorted[n]) {
        InsertKeepsStrict(l, sorted[..n], e);
        InsertMembers(l, sorted[..n], e);
        var inserted := Insert(l, sorted[..n], e);
        forall i | 0 <= i < |inserted| ensures Before(l, inserted[i], sorted[n]) {
          assert inserted[i] in inserted;
        }
      } else {
        forall i | 0 <= i < n ensures Before(l, sorted[i], e) {
          BeforeIsOrder(l, sorted[i], sorted[n], e);
        }
      }
    }
  }

  lemma {:induction false} SortIsStrict(l: Locale, entries: seq<Entry>)
    requires forall i, j :: 0 <= i < j < |entries| ==>
             Before(l, entries[i], entries[j]) || Before(l, entries[j], entries[i])
    ensures StrictlySorted(l, Sort(l, entries))
    ensures forall x :: x in Sort(l, entries) <==> x in entries
  {
    hide Before;
    if entries != [] {
      var n := |entries| - 1;
      SortIsStrict(l, entries[..n]);
      InsertMembers(l, Sort(l, entries[..n]), entries[n]);
      assert entries == entries[..n] + [entries[n]];
      InsertKeepsStrict(l, Sort(l, entries[..n]), entries[n]);
    }
  }

  // ---- What deduplication keeps --------------------------------------------

  /** An entry that no other of its name precedes. */
  ghost predicate IsBest(l: Locale, entries: seq<Entry>, e: Entry) {
    e in entries && l.Name(e) != "" && forall x :: x in entries && l.Name(x) == l.Name(e) ==> !Before(l, x, e)
  }

  ghost predicate DistinctNames(l: Locale, entries: seq<Entry>) {
    forall i, j :: 0 <= i < j < |entries| ==> l.Name(entries[i]) != l.Name(entries[j])
  }

  /** Two best entries of one name are the same. */
  lemma BestIsUnique(l: Locale, entries: seq<Entry>, a: Entry, b: Entry)
    requires DistinctCodes(l, entries) && IsBest(l, entries, a) && IsBest(l, entries, b) && l.Name(a) == l.Name(b)
    ensures a == b
  {
    BeforeIsOrder(l, a, b, a);
  }

  lemma {:induction false} CollectKeepsBest(l: Locale, entries: seq<Entry>)
    requires DistinctCodes(l, entries)
    ensures DistinctNames(l, Collect(l, entries))
    ensures forall e :: e in Collect(l, entries) <==> IsBest(l, entries, e)
  {
    hide Before;
    if entries != [] {
      var n := |entries| - 1;
      var e := entries[n];
      assert forall x :: x in entries <==> x in entries[..n] || x == e;
      CollectKeepsBest(l, entries[..n]);
      var kept := Collect(l, entries[..n]);
      var i := IndexOfName(l, kept, l.Name(e));
      var next := Consider(l, kept, e);
      assert next == Collect(l, entries);
      if l.Name(e) != "" && i < 0 {
        NoneOfName(l, entries[..n], l.Name(e));
        NewName(l, entries, e, kept);
      } else if l.Name(e) != "" {
        assert kept[i] in kept;
        KnownName(l, entries, e, kept, i);
      } else {
        forall x ensures x in next <==> IsBest(l, entries, x) {
          assert x in kept <==> IsBest(l, entries[..n], x);
        }
      }
    }
  }

  /** Some entry of every non-empty name is best, so a name without a best entry does not occur. */
  lemma {:induction false} BestExists(l: Locale, entries: seq<Entry>, e: Entry) returns (best: Entry)
    requires e in entries && l.Name(e) != ""
    ensures IsBest(l, entries, best) && l.Name(best) == l.Name(e)
  {
    hide Before;
    var n := |entries| - 1;
    assert forall x :: x in entries <==> x in entries[..n] || x == entries[n];
    if x :| x in entries[..n] && l.Name(x) == l.Name(e) {
      var b := BestExists(l, entries[..n], x);
      BeforeIsOrder(l, entries[n], b, b);
      if l.Name(entries[n]) == l.Name(e) && Before(l, entries[n], b) {
        best := entries[n];
        forall y | y in entries && l.Name(y) == l.Name(e) ensures !Before(l, y, best) {
          BeforeIsOrder(l, y, best, b);
          if y !in entries[..n] { assert y == best; }
        }
      } else {
        best := b;
      }
    } else {
      best := e;
      BeforeIsOrder(l, e, e, e);
    }
  }

  lemma NoneOfName(l: Locale, entries: seq<Entry>, name: string)
    requires name != "" && forall x :: IsBest(l, entries, x) ==> l.Name(x) != name
    ensures forall x :: x in entries ==> l.Name(x) != name
  {
    forall x | x in entries ensures l.Name(x) != name {
      if l.Name(x) == name {
        var best := BestExists(l, entries, x);
      }
    }
  }

  lemma NewName(l: Locale, entries: seq<Entry>, e: Entry, kept: seq<Entry>)
    requires entries != [] && e == entries[|entries| - 1] && l.Name(e) != ""
    requires forall x :: x in kept <==> IsBest(l, entries[..|entries| - 1], x)
    requires forall x :: x in entries[..|entries| - 1] ==> l.Name(x) != l.Name(e)
    ensures forall x :: x in kept + [e] <==> IsBest(l, entries, x)
  {
    hide Before;
    var init := entries[..|entries| - 1];
    assert entries == init + [e];
    forall x ensures x in kept + [e] <==> IsBest(l, entries, x) {
      BeforeIsOrder(l, x, x, x);
      assert x in kept <==> IsBest(l, init, x);
    }
  }

  lemma ReplacedMembers(l: Locale, kept: seq<Entry>, i: nat, e: Entry, x: Entry)
    requires DistinctNames(l, kept) && i < |kept|
    ensures x in kept[i := e] <==> x == e || (x in kept && x != kept[i])
  {
    var next := kept[i := e];
    assert next[i] == e;
    if x in kept && x != kept[i] {
      var j :| 0 <= j < |kept| && kept[j] == x;
      assert next[j] == x;
    }
    if x in next && x != e {
      var j :| 0 <= j < |next| && next[j] == x;
      assert kept[j] == x && l.Name(kept[j]) != l.Name(kept[i]);
    }
  }

  lemma KnownName(l: Locale, entries: seq<Entry>, e: Entry, kept: seq<Entry>, i: nat)
    requires entries != [] && e == entries[|entries| - 1] && l.Name(e) != "" && DistinctCodes(l, entries)
    requires forall x :: x in kept <==> IsBest(l, entries[..|entries| - 1], x)
    requires DistinctNames(l, kept) && i < |kept| && l.Name(kept[i]) == l.Name(e)
    ensures var next := if Before(l, e, kept[i]) then kept[i := e] else kept;
            forall x :: x in next <==> IsBest(l, entries, x)
  {
    hide Before;
    var init, current := entries[..|entries| - 1], kept[i];
    assert entries == init + [e];
    assert current in kept && IsBest(l, init, current);
    var next := if Before(l, e, current) then kept[i := e] else kept;
    assert DistinctCodes(l, init);
    forall y | y in entries && l.Name(y) == l.Name(e) && Before(l, e, current) ensures !Before(l, y, e) {
      BeforeIsOrder(l, y, e, current);
      BeforeIsOrder(l, e, e, e);
    }
    assert Before(l, e, current) ==> IsBest(l, entries, e);
    assert !Before(l, e, current) ==> IsBest(l, entries, current);
    forall x ensures x in next <==> IsBest(l, entries, x) {
      assert x in kept <==> IsBest(l, init, x);
      ReplacedMembers(l, kept, i, e, x);
      if l.Name(x) == l.Name(e) {
        if x in kept {
          BestIsUnique(l, init, x, current);
        }
        if IsBest(l, entries, x) {
          BestIsUnique(l, entries, x, if Before(l, e, current) then e else current);
        }
      }
    }
  }

  /** Deduplication yields the best entry of every name, strictly in the order of priority. */
  lemma DedupeIsBestPerName(l: Locale, entries: seq<Entry>)
    requires DistinctCodes(l, entries)
    ensures StrictlySorted(l, Dedupe(l, entries))
    ensures forall e :: e in Dedupe(l, entries) <==> IsBest(l, entries, e)
  {
    hide Before;
    CollectKeepsBest(l, entries);
    var kept := Collect(l, entries);
    forall i, j | 0 <= i < j < |kept| ensures Before(l, kept[i], kept[j]) || Before(l, kept[j], kept[i]) {
      assert kept[i] in kept && kept[j] in kept;
      assert IsBest(l, entries, kept[i]) && IsBest(l, entries, kept[j]);
      BeforeIsOrder(l, kept[i], kept[j], kept[i]);
    }
    SortIsStrict(l, kept);
  }

  lemma NoMembers(entries: seq<Entry>)
    ensures entries == [] <==> forall e :: e !in entries
  {
    if entries != [] {
      assert entries[0] in entries;
    }
  }

  /** A strictly sorted list is determined by its members. */
  lemma {:induction false} SortedByMembers(l: Locale, a: seq<Entry>, b: seq<Entry>)
    requires StrictlySorted(l, a) && StrictlySorted(l, b)
    requires forall e :: e in a <==> e in b
    ensures a == b
    decreases |a|
  {
    hide Before;
    if a == [] {
      NoMembers(b);
    } else {
      assert a[0] in b;
      assert b[0] in a;
      if a[0] != b[0] {
        BeforeIsOrder(l, a[0], b[0], a[0]);
      }
      forall e ensures e in a[1..] <==> e in b[1..] {
        assert e in a <==> e == a[0] || e in a[1..];
        assert e in b <==> e == b[0] || e in b[1..];
        BeforeIsOrder(l, a[0], a[0], a[0]);
      }
      SortedByMembers(l, a[1..], b[1..]);
    }
  }

  ghost predicate SameMembers(a: seq<Entry>, b: seq<Entry>) {
    forall e :: e in a <==> e in b
  }

  /** Deduplication does not depend on the order of the entries, nor on repetitions. */
  lemma DedupeOrderIndependent(l: Locale, a: seq<Entry>, b: seq<Entry>)
    requires DistinctCodes(l, a) && SameMembers(a, b)
    ensures Dedupe(l, a) == Dedupe(l, b)
  {
    hide Dedupe, StrictlySorted;
    DedupeIsBestPerName(l, a);
    DedupeIsBestPerName(l, b);
    forall e ensures IsBest(l, a, e) <==> IsBest(l, b, e) {
    }
    SortedByMembers(l, Dedupe(l, a), Dedupe(l, b));
  }

  lemma {:induction false} FilterMembers(entries: seq<Entry>, keep: Entry -> bool)
    ensures forall e :: e in Filter(entries, keep) <==> e in entries && keep(e)
  {
    if entries != [] {
      var n := |entries| - 1;
      FilterMembers(entries[..n], keep);
      assert entries == entries[..n] + [entries[n]];
    }
  }

  lemma FilterOrderIndependent(l: Locale, a: seq<Entry>, b: seq<Entry>, keep: Entry -> bool)
    requires DistinctCodes(l, a) && SameMembers(a, b)
    ensures Dedupe(l, Filter(a, keep)) == Dedupe(l, Filter(b, keep))
  {
    FilterMembers(a, keep);
    FilterMembers(b, keep);
    DedupeOrderIndependent(l, Filter(a, keep), Filter(b, keep));
  }

  lemma {:induction false} FindCodeFinds(entries: seq<Entry>, corpCode: string)
    ensures if exists e :: e in entries && e.corpCode == corpCode
            then |FindCode(entries, corpCode)| == 1 && FindCode(entries, corpCode)[0] in entries &&
                 FindCode(entries, corpCode)[0].corpCode == corpCode
            else FindCode(entries, corpCode) == []
  {
    if entries != [] {
      FindCodeFinds(entries[1..], corpCode);
      assert forall e :: e in entries <==> e == entries[0] || e in entries[1..];
    }
  }

  /** The whole resolution, with its fuzzy matches and its list of candidates, is the same for every order of the
      list. */
  lemma ResolveOrderIndependent(l: Locale, a: seq<Entry>, b: seq<Entry>, companyName: string, selected: string)
    requires DistinctCodes(l, a) && SameMembers(a, b)
    ensures Resolve(l, a, companyName, selected) == Resolve(l, b, companyName, selected)
  {
    hide Dedupe, Filter, IsMeaningfulFuzzyMatch, FindCode;
    var query := l.normalize(companyName);
    FindCodeFinds(a, selected);
    FindCodeFinds(b, selected);
    assert FindCode(a, selected) == FindCode(b, selected);
    FilterOrderIndependent(l, a, b, e => l.Name(e) == query);
    FilterOrderIndependent(l, a, b, e => IsMeaningfulFuzzyMatch(query, l.Name(e)));
  }

  /** An exact name is never ambiguous: it resolves to the best entry of that name. */
  lemma ExactNameResolves(l: Locale, entries: seq<Entry>, companyName: string, selected: string, e: Entry)
    requires DistinctCodes(l, entries)
    requires l.normalize(companyName) != "" && e in entries && l.Name(e) == l.normalize(companyName)
    requires forall x :: x in entries && selected != "" ==> x.corpCode != selected
    ensures var r := Resolve(l, entries, companyName, selected);
            r.Resolved? && l.Name(r.company) == l.normalize(companyName) && IsBest(l, entries, r.company)
  {
    hide Dedupe, Filter, IsMeaningfulFuzzyMatch, FindCode;
    var query := l.normalize(companyName);
    var keep := (x: Entry) => l.Name(x) == query;
    var matching := Filter(entries, keep);
    FilterMembers(entries, keep);
    FindCodeFinds(entries, selected);
    DedupeIsBestPerName(l, matching);
    var exact := Dedupe(l, matching);
    var best := BestExists(l, matching, e);
    assert best in exact;
    forall i | 0 <= i < |exact| ensures exact[i] == best {
      assert exact[i] in exact && IsBest(l, matching, exact[i]);
      BestIsUnique(l, matching, exact[i], best);
    }
    OneAtMost(l, exact, best);
  }

  lemma OneAtMost(l: Locale, entries: seq<Entry>, only: Entry)
    requires StrictlySorted(l, entries) && forall i :: 0 <= i < |entries| ==> entries[i] == only
    ensures |entries| <= 1
  {
    hide Before;
    if |entries| > 1 {
      assert Before(l, entries[0], entries[1]);
    }
    BeforeIsOrder(l, only, only, only);
  }

  /** A selected code that is in the list wins over any name. */
  lemma SelectedCodeResolves(l: Locale, entries: seq<Entry>, companyName: string, selected: string, e: Entry)
    requires DistinctCodes(l, entries) && l.normalize(companyName) != "" && selected != ""
    requires e in entries && e.corpCode == selected
    ensures Resolve(l, entries, companyName, selected) == Resolved(e)
  {
    hide Dedupe, Filter, IsMeaningfulFuzzyMatch, FindCode;
    FindCodeFinds(entries, selected);
  }

  // ---- Who comes first, and what is like a name ----------------------------

  /** A listed company comes before one that is not; of two listed or two unlisted ones, the one changed later, and of
      two changed at once the one with the smaller code. */
  lemma BeforeExact(l: Locale, a: Entry, b: Entry)
    ensures Before(l, a, b) <==>
            || (a.stockCode != "" && b.stockCode == "")
            || ((a.stockCode == "" <==> b.stockCode == "") &&
                (|| l.collate(a.modifyDate) > l.collate(b.modifyDate)
                 || (l.collate(a.modifyDate) == l.collate(b.modifyDate) &&
                     l.collate(a.corpCode) < l.collate(b.corpCode))))
  {
  }

  /** The resolved entry of an exact name is listed if any of its name is, and none of its kind was changed later. */
  lemma ResolvedIsListedAndLatest(l: Locale, entries: seq<Entry>, companyName: string, e: Entry)
    requires DistinctCodes(l, entries)
    requires l.normalize(companyName) != "" && e in entries && l.Name(e) == l.normalize(companyName)
    ensures var r := Resolve(l, entries, companyName, "");
            && r.Resolved?
            && (e.stockCode != "" ==> r.company.stockCode != "")
            && ((e.stockCode == "" <==> r.company.stockCode == "") ==>
                  l.collate(r.company.modifyDate) >= l.collate(e.modifyDate))
  {
    hide Resolve, Before;
    ExactNameResolves(l, entries, companyName, "", e);
    BeforeExact(l, e, Resolve(l, entries, companyName, "").company);
  }

  ghost predicate Embeds(text: string, part: string) {
    exists a, b :: text == a + part + b
  }

  lemma IncludesEmbeds(text: string, part: string)
    ensures Includes(text, part) <==> Embeds(text, part)
  {
    if i :| 0 <= i <= |text| && OccursAt(text, part, i) {
      assert text == text[..i] + part + text[i + |part|..];
    }
    if a: string, b: string :| text == a + part + b {
      assert text[|a|..|a| + |part|] == part;
      assert OccursAt(text, part, |a|);
    }
  }

  /** Two names are alike exactly when the shorter, of two characters or more, is part of the longer and at least half
      as long. */
  lemma FuzzyExact(query: string, candidate: string)
    ensures var shorter, longer := if |query| <= |candidate| then query else candidate,
                                   if |query| <= |candidate| then candidate else query;
            IsMeaningfulFuzzyMatch(query, candidate) <==>
            |shorter| >= 2 && |longer| <= 2 * |shorter| && Embeds(longer, shorter)
  {
    IncludesEmbeds(candidate, query);
    IncludesEmbeds(query, candidate);
  }

  /** An entry that could be meant by a name that no entry has: the best of a name that is like it. */
  ghost predicate IsCandidate(l: Locale, entries: seq<Entry>, query: string, e: Entry) {
    IsBest(l, entries, e) && IsMeaningfulFuzzyMatch(query, l.Name(e))
  }

  lemma BestOfFiltered(l: Locale, entries: seq<Entry>, query: string, e: Entry)
    ensures IsBest(l, Filter(entries, x => IsMeaningfulFuzzyMatch(query, l.Name(x))), e) <==>
            IsCandidate(l, entries, query, e)
  {
    hide Before, IsMeaningfulFuzzyMatch;
    FilterMembers(entries, x => IsMeaningfulFuzzyMatch(query, l.Name(x)));
  }

  /** A name that no entry has, or that is empty when normalized, resolves to its one candidate; with more, the first
      ten of them are offered in their order, and without any the company is not found. */
  lemma FuzzyResolves(l: Locale, entries: seq<Entry>, companyName: string, selected: string)
    requires DistinctCodes(l, entries)
    requires forall e :: e in entries && selected != "" ==> e.corpCode != selected
    requires l.normalize(companyName) != "" ==> forall e :: e in entries ==> l.Name(e) != l.normalize(companyName)
    ensures var query := l.normalize(companyName);
            match Resolve(l, entries, companyName, selected)
            case NotFound => forall e :: !IsCandidate(l, entries, query, e)
            case Resolved(company) => forall e :: IsCandidate(l, entries, query, e) <==> e == company
            case Ambiguous(offered) =>
              && 2 <= |offered| <= 10 && StrictlySorted(l, offered)
              && (forall e :: e in offered ==> IsCandidate(l, entries, query, e))
              && (forall e :: IsCandidate(l, entries, query, e) && e !in offered ==>
                    |offered| == 10 && forall o :: o in offered ==> Before(l, o, e))
  {
    hide Dedupe, Before, IsMeaningfulFuzzyMatch, Filter, FindCode;
    var query := l.normalize(companyName);
    FindCodeFinds(entries, selected);
    NothingLikeEmpty(l);
    var exact := Filter(entries, e => l.Name(e) == query);
    var alike := Filter(entries, e => IsMeaningfulFuzzyMatch(query, l.Name(e)));
    FilterMembers(entries, e => l.Name(e) == query);
    FilterMembers(entries, e => IsMeaningfulFuzzyMatch(query, l.Name(e)));
    DedupeIsBestPerName(l, exact);
    NoMembers(Dedupe(l, exact));
    DedupeIsBestPerName(l, alike);
    var fuzzy := Dedupe(l, alike);
    NoMembers(fuzzy);
    forall e ensures e in fuzzy <==> IsCandidate(l, entries, query, e) {
      BestOfFiltered(l, entries, query, e);
    }
    if |fuzzy| >= 2 {
      TenOffered(l, fuzzy);
    }
  }

  lemma NothingLikeEmpty(l: Locale)
    ensures forall e: Entry :: !IsMeaningfulFuzzyMatch("", l.Name(e))
  {
    hide Includes;
  }

  lemma TenOffered(l: Locale, fuzzy: seq<Entry>)
    requires StrictlySorted(l, fuzzy)
    ensures var offered := FirstTen(fuzzy);
            && |offered| <= 10 && StrictlySorted(l, offered)
            && (forall e :: e in offered ==> e in fuzzy)
            && (forall e :: e in fuzzy && e !in offered ==>
                  |offered| == 10 && forall o :: o in offered ==> Before(l, o, e))
  {
    hide Before;
    if |fuzzy| > 10 {
      var offered, others := fuzzy[..10], fuzzy[10..];
      assert fuzzy == offered + others;
      forall e | e in others ensures forall o :: o in offered ==> Before(l, o, e) {
        var j :| 0 <= j < |others| && others[j] == e;
        forall o | o in offered ensures Before(l, o, e) {
          var i :| 0 <= i < |offered| && offered[i] == o;
          assert fuzzy[i] == o && fuzzy[10 + j] == e;
        }
      }
    }
  }
}
