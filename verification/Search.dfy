/** The in-memory search repository: filters, text match, multi-key sort, pages and the two ways to scroll. */
module Search {
  import opened Batches
  import opened Lexicographic
  import opened Sorting

  /** JSON scalars a document field may hold. */
  datatype Value = Null | Number(n: int) | Text(s: string)

  type Source = map<string, Value>

  datatype Entry = Entry(id: string, source: Source)

  /** `position` is the place of the document in the store. */
  datatype Hit = Hit(position: nat, id: string, source: Source, score: nat)

  datatype SortKey = SortKey(field: string, order: string)

  /** No text is the empty text. */
  datatype Query = Query(text: string, filters: Source, sort: seq<SortKey>, page: int, pageSize: int)

  datatype Failure = TypeError | ValueError

  datatype Outcome<T> = Returned(value: T) | Failed(error: Failure)

  // ---------------------------------------------------------------------
  // Matching
  // ---------------------------------------------------------------------

  function LowerChar(c: char): char {
    if 'A' <= c <= 'Z' then c - 'A' + 'a' else c
  }

  function Lower(s: string): string {
    seq(|s|, i requires 0 <= i < |s| => LowerChar(s[i]))
  }

  predicate OccursAt(s: string, needle: string, i: nat) {
    i + |needle| <= |s| && s[i..i + |needle|] == needle
  }

  predicate Contains(s: string, needle: string) {
    exists i :: 0 <= i <= |s| && OccursAt(s, needle, i)
  }

  function Get(source: Source, field: string, default: Value): Value {
    if field in source then source[field] else default
  }

  predicate MatchesFilters(source: Source, filters: Source) {
    forall k :: k in filters ==> Get(source, k, Null) == filters[k]
  }

  function MatchingFields(source: Source, needle: string): set<string> {
    set k | k in source && source[k].Text? && Contains(Lower(source[k].s), needle)
  }

  function TextScore(source: Source, text: string): nat {
    if text == "" then 1 else |MatchingFields(source, Lower(text))|
  }

  predicate Matches(source: Source, q: Query) {
    MatchesFilters(source, q.filters) && (q.text == "" || TextScore(source, q.text) != 0)
  }

  /** The matching documents in store order. */
  function Hits(store: seq<Entry>, q: Query): seq<Hit> {
    if store == [] then []
    else
      var last := |store| - 1;
      var before := Hits(store[..last], q);
      if Matches(store[last].source, q)
      then before + [Hit(last, store[last].id, store[last].source, TextScore(store[last].source, q.text))]
      else before
  }

  // ---------------------------------------------------------------------
  // Sorting
  // ---------------------------------------------------------------------

  function KeyValue(h: Hit, field: string): Value {
    Get(h.source, field, Text(""))
  }

  predicate Descending(k: SortKey) {
    Lower(k.order) == "desc"
  }

  /** Python compares numbers with numbers and text with text; anything else is a `TypeError`. */
  predicate Comparable(hits: seq<Hit>, field: string) {
    || |hits| < 2
    || (forall h :: h in hits ==> KeyValue(h, field).Number?)
    || (forall h :: h in hits ==> KeyValue(h, field).Text?)
  }

  predicate ValueLess(a: Value, b: Value) {
    match (a, b)
    case (Number(m), Number(n)) => m < n
    case (Text(s), Text(t)) => TextLess(s, t)
    case (Null, Null) => false
    case (Null, _) => true
    case (Number(_), Text(_)) => true
    case _ => false
  }

  /** `a` may stand before `b` as far as this key is concerned. */
  predicate KeyAtMost(k: SortKey, a: Hit, b: Hit) {
    if Descending(k) then !ValueLess(KeyValue(a, k.field), KeyValue(b, k.field))
    else !ValueLess(KeyValue(b, k.field), KeyValue(a, k.field))
  }

  function ByKey(k: SortKey): (Hit, Hit) -> bool {
    (a: Hit, b: Hit) => KeyAtMost(k, a, b)
  }

  function ByScore(): (Hit, Hit) -> bool {
    (a: Hit, b: Hit) => a.score >= b.score
  }

  /** One stable sort per key, the last key first. */
  function SortAll(keys: seq<SortKey>, hits: seq<Hit>): seq<Hit> {
    if keys == [] then hits else Sort(ByKey(keys[0]), SortAll(keys[1..], hits))
  }

  function Ranked(hits: seq<Hit>, keys: seq<SortKey>): Outcome<seq<Hit>> {
    if keys == [] then Returned(Sort(ByScore(), hits))
    else if forall k :: k in keys ==> Comparable(hits, k.field) then Returned(SortAll(keys, hits))
    else Failed(TypeError)
  }

  // ---------------------------------------------------------------------
  // Pages
  // ---------------------------------------------------------------------

  /** A Python slice bound: negative ones count from the end. */
  function Bound(n: nat, i: int): nat {
    var j := if i < 0 then i + n else i;
    if j < 0 then 0 else if j > n then n else j
  }

  function Slice<T>(s: seq<T>, lo: int, hi: int): seq<T> {
    var a, b := Bound(|s|, lo), Bound(|s|, hi);
    if a <= b then s[a..b] else []
  }

  function Page<T>(s: seq<T>, page: int, size: int): seq<T> {
    Slice(s, (page - 1) * size, (page - 1) * size + size)
  }

  function SearchSpec(store: seq<Entry>, q: Query): Outcome<(seq<Hit>, nat)> {
    match Ranked(Hits(store, q), q.sort)
    case Failed(e) => Failed(e)
    case Returned(all) => Returned((Page(all, q.page, q.pageSize), |all|))
  }

  /** What is left of the backlog when `page` comes. */
  function Left(n: nat, page: nat, size: int): nat {
    if size >= 1 then (if (page - 1) * size < n then n - (page - 1) * size else 0)
    else if page <= 1 then 1 else 0
  }

  lemma PageShrinks<T>(s: seq<T>, page: nat, size: int)
    requires page >= 1 && Page(s, page, size) != []
    ensures Left(|s|, page + 1, size) < Left(|s|, page, size)
  {
    if size >= 1 {
      assert page * size == (page - 1) * size + size;
    }
  }

  /** The pages of the default `scroll`: until one is empty or shorter than asked for. */
  function PagesFrom<T>(s: seq<T>, page: nat, size: int): seq<seq<T>>
    requires page >= 1
    decreases Left(|s|, page, size)
  {
    var hits := Page(s, page, size);
    if hits == [] then []
    else if |hits| < size then [hits]
    else
      PageShrinks(s, page, size);
      [hits] + PagesFrom(s, page + 1, size)
  }

  /** The chunks of the overriding `scroll`. */
  function Chunks<T>(s: seq<T>, size: nat): seq<seq<T>>
    requires size >= 1
    decreases |s|
  {
    if s == [] then [] else if |s| <= size then [s] else [s[..size]] + Chunks(s[size..], size)
  }

  function ChunksFrom<T>(s: seq<T>, i: nat, size: nat): seq<seq<T>>
    requires size >= 1
  {
    if i < |s| then Chunks(s[i..], size) else []
  }

  lemma ChunkStep<T>(s: seq<T>, i: nat, size: nat)
    requires size >= 1 && i < |s|
    ensures ChunksFrom(s, i, size) == [Slice(s, i, i + size)] + ChunksFrom(s, i + size, size)
  {
    if i + size < |s| {
      assert s[i..][size..] == s[i + size..] && s[i..][..size] == s[i..i + size];
    } else {
      assert Slice(s, i, i + size) == s[i..];
    }
  }

  function PagedScroll(store: seq<Entry>, q: Query, size: int): Outcome<seq<seq<Hit>>> {
    match Ranked(Hits(store, q), q.sort)
    case Failed(e) => Failed(e)
    case Returned(all) => Returned(PagesFrom(all, 1, size))
  }

  function ChunkedScroll(store: seq<Entry>, q: Query, size: int): Outcome<seq<seq<Hit>>> {
    match Ranked(Hits(store, q), q.sort)
    case Failed(e) => Failed(e)
    case Returned(all) =>
      if size == 0 then Failed(ValueError) else Returned(if size < 0 then [] else Chunks(all, size))
  }

  // ---------------------------------------------------------------------
  // The repository
  // ---------------------------------------------------------------------

  class InMemorySearchRepository {
    var store: seq<Entry>

    constructor ()
      ensures store == []
    {
      store := [];
    }

    /** The loop that collects the matching documents. */
    method Collect(q: Query) returns (hits: seq<Hit>)
      ensures hits == Hits(store, q)
    {
      hits := [];
      for i := 0 to |store|
        invariant hits == Hits(store[..i], q)
      {
        assert store[..i + 1][..i] == store[..i];
        var source := store[i].source;
        if !MatchesFilters(source, q.filters) {
          continue;
        }
        var score := TextScore(source, q.text);
        if q.text != "" && score == 0 {
          continue;
        }
        hits := hits + [Hit(i, store[i].id, source, score)];
      }
      assert store[..|store|] == store;
    }

    /** One sort per key, in reverse key order. */
    method SortHits(hits: seq<Hit>, keys: seq<SortKey>) returns (r: Outcome<seq<Hit>>)
      ensures r == Ranked(hits, keys)
    {
      if keys == [] {
        return Returned(Sort(ByScore(), hits));
      }
      var sorted := hits;
      var i := |keys|;
      while i > 0
        invariant 0 <= i <= |keys|
        invariant sorted == SortAll(keys[i..], hits)
        invariant forall j :: i <= j < |keys| ==> Comparable(hits, keys[j].field)
      {
        i := i - 1;
        SortAllMembers(keys[i + 1..], hits);
        if !Comparable(sorted, keys[i].field) {
          assert keys[i] in keys;
          return Failed(TypeError);
        }
        assert keys[i..][1..] == keys[i + 1..];
        sorted := Sort(ByKey(keys[i]), sorted);
      }
      assert keys[0..] == keys;
      return Returned(sorted);
    }

    method Search(q: Query) returns (r: Outcome<(seq<Hit>, nat)>)
      ensures r == SearchSpec(store, q)
      ensures r.Returned? ==> r.value.1 == |Hits(store, q)|
    {
      var hits := Collect(q);
      var ranked := SortHits(hits, q.sort);
      if ranked.Failed? {
        return Failed(ranked.error);
      }
      RankingKeepsCount(hits, q.sort);
      var offset := (q.page - 1) * q.pageSize;
      return Returned((Slice(ranked.value, offset, offset + q.pageSize), |ranked.value|));
    }

    /** The default `scroll` of the base class, on top of `Search`. */
    method ScrollByPages(q: Query, size: int) returns (r: Outcome<seq<seq<Hit>>>)
      ensures r == PagedScroll(store, q, size)
    {
      var batches: seq<seq<Hit>> := [];
      var page := 1;
      ghost var ranked := Ranked(Hits(store, q), q.sort);
      ghost var all := if ranked.Returned? then ranked.value else [];
      while true
        invariant page >= 1
        invariant ranked.Returned? ==> PagesFrom(all, 1, size) == batches + PagesFrom(all, page, size)
        decreases Left(|all|, page, size)
      {
        SameHits(store, q, page, size);
        var result := Search(Query(q.text, q.filters, q.sort, page, size));
        if result.Failed? {
          return Failed(result.error);
        }
        var hits := result.value.0;
        if hits == [] {
          assert batches + [] == batches;
          return Returned(batches);
        }
        batches := batches + [hits];
        if |hits| < size {
          return Returned(batches);
        }
        PageShrinks(all, page, size);
        page := page + 1;
      }
    }

    /** The overriding `scroll`. */
    method Scroll(q: Query, size: int) returns (r: Outcome<seq<seq<Hit>>>)
      ensures r == ChunkedScroll(store, q, size)
    {
      var hits := Collect(q);
      var ranked := SortHits(hits, q.sort);
      if ranked.Failed? {
        return Failed(ranked.error);
      }
      var all := ranked.value;
      if size == 0 {
        return Failed(ValueError);
      }
      var batches: seq<seq<Hit>> := [];
      var i := 0;
      while size > 0 && i < |all|
        invariant 0 <= i
        invariant size > 0 ==> Chunks(all, size) == batches + ChunksFrom(all, i, size)
        invariant size < 0 ==> batches == []
        decreases |all| - i
      {
        ChunkStep(all, i, size);
        batches := batches + [Slice(all, i, i + size)];
        i := i + size;
      }
      assert batches + [] == batches;
      return Returned(batches);
    }
  }

  lemma SameHits(store: seq<Entry>, q: Query, page: int, size: int)
    ensures Hits(store, Query(q.text, q.filters, q.sort, page, size)) == Hits(store, q)
  {
    if store != [] {
      SameHits(store[..|store| - 1], q, page, size);
    }
  }

  lemma {:induction false} SortAllPermutes(keys: seq<SortKey>, hits: seq<Hit>)
    ensures multiset(SortAll(keys, hits)) == multiset(hits)
  {
    if keys != [] {
      SortAllPermutes(keys[1..], hits);
      SortPermutes(ByKey(keys[0]), SortAll(keys[1..], hits));
    }
  }

  lemma SortAllMembers(keys: seq<SortKey>, hits: seq<Hit>)
    ensures |SortAll(keys, hits)| == |hits|
    ensures forall h :: h in SortAll(keys, hits) <==> h in hits
  {
    var sorted := SortAll(keys, hits);
    SortAllPermutes(keys, hits);
    assert |sorted| == |multiset(sorted)| == |multiset(hits)| == |hits|;
    forall h ensures h in sorted <==> h in hits {
      assert h in sorted <==> h in multiset(sorted);
      assert h in hits <==> h in multiset(hits);
    }
  }

  lemma RankingKeepsCount(hits: seq<Hit>, keys: seq<SortKey>)
    ensures Ranked(hits, keys).Returned? ==> |Ranked(hits, keys).value| == |hits|
  {
    SortAllMembers(keys, hits);
    SortPermutes(ByScore(), hits);
    assert |multiset(Sort(ByScore(), hits))| == |multiset(hits)|;
  }

  // ---------------------------------------------------------------------
  // The order of the results
  // ---------------------------------------------------------------------

  predicate KeyEqual(k: SortKey, a: Hit, b: Hit) {
    KeyAtMost(k, a, b) && KeyAtMost(k, b, a)
  }

  /** The first key on which they differ decides; store order when there is none. */
  predicate Precedes(keys: seq<SortKey>, a: Hit, b: Hit) {
    || (exists i :: 0 <= i < |keys| && !KeyAtMost(keys[i], b, a) && forall j :: 0 <= j < i ==> KeyEqual(keys[j], a, b))
    || (a.position < b.position && forall i :: 0 <= i < |keys| ==> KeyEqual(keys[i], a, b))
  }

  function ByPosition(): (Hit, Hit) -> bool {
    (a: Hit, b: Hit) => a.position < b.position
  }

  function Nested(keys: seq<SortKey>): (Hit, Hit) -> bool {
    if keys == [] then ByPosition() else Then(ByKey(keys[0]), Nested(keys[1..]))
  }

  lemma ValueOrder()
    ensures forall a, b :: ValueLess(a, b) ==> !ValueLess(b, a)
    ensures forall a, b, c :: !ValueLess(b, a) && !ValueLess(c, b) ==> !ValueLess(c, a)
  {
    forall a, b | ValueLess(a, b) ensures !ValueLess(b, a) {
      if a.Text? && b.Text? {
        LexAsymmetric(Codes(a.s), Codes(b.s));
      }
    }
    forall a, b, c | !ValueLess(b, a) && !ValueLess(c, b) ensures !ValueLess(c, a) {
      if a.Text? && b.Text? && c.Text? {
        LexNotLessTransitive(Codes(a.s), Codes(b.s), Codes(c.s));
      }
    }
  }

  lemma KeyPreorder(k: SortKey)
    ensures TotalPreorder(ByKey(k))
  {
    ValueOrder();
  }

  lemma {:induction false} SortAllNested(keys: seq<SortKey>, hits: seq<Hit>)
    requires Pairwise(ByPosition(), hits)
    ensures Pairwise(Nested(keys), SortAll(keys, hits))
  {
    if keys != [] {
      SortAllNested(keys[1..], hits);
      KeyPreorder(keys[0]);
      SortOrders(ByKey(keys[0]), Nested(keys[1..]), SortAll(keys[1..], hits));
    }
  }

  lemma {:induction false} NestedIsPrecedes(keys: seq<SortKey>, a: Hit, b: Hit)
    ensures Nested(keys)(a, b) <==> Precedes(keys, a, b)
  {
    if keys != [] {
      NestedIsPrecedes(keys[1..], a, b);
      KeyPreorder(keys[0]);
      assert ByKey(keys[0])(a, b) || ByKey(keys[0])(b, a);
      PrecedesUnfold(keys, a, b);
    }
  }

  lemma PrecedesUnfold(keys: seq<SortKey>, a: Hit, b: Hit)
    requires keys != []
    ensures Precedes(keys, a, b)
      <==> !KeyAtMost(keys[0], b, a) || (KeyEqual(keys[0], a, b) && Precedes(keys[1..], a, b))
  {
    var rest := keys[1..];
    if KeyEqual(keys[0], a, b) {
      if i :| 0 <= i < |rest| && !KeyAtMost(rest[i], b, a) && forall j :: 0 <= j < i ==> KeyEqual(rest[j], a, b) {
        assert !KeyAtMost(keys[i + 1], b, a);
        assert forall j :: 0 <= j < i + 1 ==> KeyEqual(keys[j], a, b);
      }
      if i :| 0 <= i < |keys| && !KeyAtMost(keys[i], b, a) && forall j :: 0 <= j < i ==> KeyEqual(keys[j], a, b) {
        assert i > 0 && !KeyAtMost(rest[i - 1], b, a);
        assert forall j :: 0 <= j < i - 1 ==> KeyEqual(rest[j], a, b) by {
          forall j | 0 <= j < i - 1 ensures KeyEqual(rest[j], a, b) {
            assert KeyEqual(keys[j + 1], a, b);
          }
        }
      }
      if forall i :: 0 <= i < |rest| ==> KeyEqual(rest[i], a, b) {
        assert forall i :: 0 <= i < |keys| ==> KeyEqual(keys[i], a, b);
      }
      if forall i :: 0 <= i < |keys| ==> KeyEqual(keys[i], a, b) {
        forall i | 0 <= i < |rest| ensures KeyEqual(rest[i], a, b) {
          assert KeyEqual(keys[i + 1], a, b);
        }
      }
    }
  }

  lemma {:induction false} HitsInStoreOrder(store: seq<Entry>, q: Query)
    ensures Pairwise(ByPosition(), Hits(store, q))
    ensures forall h :: h in Hits(store, q) ==> h.position < |store|
  {
    if store != [] {
      HitsInStoreOrder(store[..|store| - 1], q);
    }
  }

  // Which documents match ----------------------------------------------------------

  /** `text` stands in `s` from position `i` on, case ignored. */
  predicate StandsAt(s: string, text: string, i: nat) {
    i + |text| <= |s| && forall j :: 0 <= j < |text| ==> SameLetter(s[i + j], text[j])
  }

  predicate SameLetter(a: char, b: char) {
    || a == b
    || ('A' <= a <= 'Z' && b as int == a as int + 32)
    || ('A' <= b <= 'Z' && a as int == b as int + 32)
  }

  predicate Mentions(source: Source, field: string, text: string) {
    field in source && source[field].Text? && exists i :: 0 <= i <= |source[field].s| && StandsAt(source[field].s, text, i)
  }

  /** Every filter field has the filter's value, a missing one counting as null. */
  predicate PassesFilters(source: Source, filters: Source) {
    forall field :: field in filters ==> (if field in source then source[field] else Null) == filters[field]
  }

  /** `fields` are the text fields that contain the text. */
  ghost predicate FieldsWith(fields: set<string>, source: Source, text: string) {
    forall field :: field in fields <==> Mentions(source, field, text)
  }

  /** A document matches, with this score. */
  ghost predicate MatchesWith(source: Source, q: Query, score: nat) {
    && PassesFilters(source, q.filters)
    && (q.text == "" ==> score == 1)
    && (q.text != "" ==> score > 0 && exists fields: set<string> :: FieldsWith(fields, source, q.text) && score == |fields|)
  }

  lemma LowerSame(a: char, b: char)
    ensures LowerChar(a) == LowerChar(b) <==> SameLetter(a, b)
  {
  }

  lemma OccursIffStands(s: string, text: string, i: nat)
    ensures OccursAt(Lower(s), Lower(text), i) <==> StandsAt(s, text, i)
  {
    if i + |text| <= |s| {
      var part := Lower(s)[i..i + |text|];
      forall j | 0 <= j < |text| ensures part[j] == Lower(text)[j] <==> SameLetter(s[i + j], text[j]) {
        LowerSame(s[i + j], text[j]);
      }
      assert part == Lower(text) <==> forall j :: 0 <= j < |text| ==> part[j] == Lower(text)[j];
    }
  }

  lemma FieldsMention(source: Source, text: string)
    ensures FieldsWith(MatchingFields(source, Lower(text)), source, text)
  {
    forall field | field in source && source[field].Text?
      ensures Contains(Lower(source[field].s), Lower(text)) <==> Mentions(source, field, text)
    {
      var s := source[field].s;
      forall i: nat ensures OccursAt(Lower(s), Lower(text), i) <==> StandsAt(s, text, i) {
        OccursIffStands(s, text, i);
      }
    }
  }

  lemma MatchesIff(source: Source, q: Query, score: nat)
    ensures Matches(source, q) && score == TextScore(source, q.text) <==> MatchesWith(source, q, score)
  {
    var fields := MatchingFields(source, Lower(q.text));
    FieldsMention(source, q.text);
    if other: set<string> :| FieldsWith(other, source, q.text) && score == |other| {
      assert other == fields;
    }
  }

  /** The hits are the documents that match, each once and with its score. */
  lemma {:induction false} HitsAreMatches(store: seq<Entry>, q: Query, h: Hit)
    ensures h in Hits(store, q) <==>
      && h.position < |store| && h.id == store[h.position].id && h.source == store[h.position].source
      && MatchesWith(h.source, q, h.score)
  {
    if store != [] {
      var init, last := store[..|store| - 1], |store| - 1;
      HitsAreMatches(init, q, h);
      MatchesIff(store[last].source, q, h.score);
      if h.position == last {
        HitsInStoreOrder(init, q);
        assert h !in Hits(init, q);
      }
    }
  }

  /** The ranked results hold each matching position exactly once, and nothing else. */
  lemma RankedAreMatches(store: seq<Entry>, q: Query, position: nat)
    requires Ranked(Hits(store, q), q.sort).Returned?
    ensures var all := Ranked(Hits(store, q), q.sort).value;
      && (forall i :: 0 <= i < |all| ==>
            && all[i].position < |store| && all[i].source == store[all[i].position].source
            && MatchesWith(all[i].source, q, all[i].score))
      && (forall i, j :: 0 <= i < j < |all| ==> all[i].position != all[j].position)
      && (position < |store| && (exists score :: MatchesWith(store[position].source, q, score)) ==>
            exists i :: 0 <= i < |all| && all[i].position == position)
  {
    var hits, all := Hits(store, q), Ranked(Hits(store, q), q.sort).value;
    HitsInStoreOrder(store, q);
    ResultsAreLexicographic(store, q, all);
    PositionsDiffer(q.sort, hits, all);
    forall i | 0 <= i < |all|
      ensures all[i].position < |store| && all[i].source == store[all[i].position].source
      ensures MatchesWith(all[i].source, q, all[i].score)
    {
      assert all[i] in all;
      HitsAreMatches(store, q, all[i]);
    }
    if position < |store| && exists score :: MatchesWith(store[position].source, q, score) {
      var score :| MatchesWith(store[position].source, q, score);
      var h := Hit(position, store[position].id, store[position].source, score);
      HitsAreMatches(store, q, h);
      assert h in all;
    }
  }

  lemma SamePosition(hits: seq<Hit>, a: Hit, b: Hit)
    requires Pairwise(ByPosition(), hits) && a in hits && b in hits
    ensures a.position == b.position ==> a == b
  {
    var i: nat :| i < |hits| && hits[i] == a;
    var j: nat :| j < |hits| && hits[j] == b;
    if i < j {
      EarlierPosition(hits, i, j);
    } else if j < i {
      EarlierPosition(hits, j, i);
    }
  }

  lemma EarlierPosition(hits: seq<Hit>, i: nat, j: nat)
    requires Pairwise(ByPosition(), hits) && i < j < |hits|
    ensures hits[i].position < hits[j].position
  {
    assert ByPosition()(hits[i], hits[j]);
  }

  lemma NotBeforeItself(keys: seq<SortKey>, h: Hit)
    ensures !InOrder(keys, h, h)
  {
    forall i | 0 <= i < |keys| ensures KeyAtMost(keys[i], h, h) {
      KeyPreorder(keys[i]);
      assert ByKey(keys[i])(h, h);
    }
  }

  lemma PositionsDiffer(keys: seq<SortKey>, hits: seq<Hit>, all: seq<Hit>)
    requires Arrangement(keys, hits, all) && Pairwise(ByPosition(), hits)
    ensures forall h :: h in all <==> h in hits
    ensures forall i, j :: 0 <= i < j < |all| ==> all[i].position != all[j].position
  {
    forall h ensures h in all <==> h in hits {
      assert h in all <==> h in multiset(all);
      assert h in hits <==> h in multiset(hits);
    }
    forall i, j | 0 <= i < j < |all| ensures all[i].position != all[j].position {
      assert InOrder(keys, all[i], all[j]) && all[i] in all && all[j] in all;
      NotBeforeItself(keys, all[i]);
      SamePosition(hits, all[i], all[j]);
    }
  }

  lemma NestedAsymmetric(keys: seq<SortKey>)
    ensures forall a, b :: Nested(keys)(a, b) ==> !Nested(keys)(b, a)
  {
    forall a, b | Nested(keys)(a, b) ensures !Nested(keys)(b, a) {
      AtMostOneWay(keys, a, b);
    }
  }

  lemma {:induction false} AtMostOneWay(keys: seq<SortKey>, a: Hit, b: Hit)
    ensures !(Nested(keys)(a, b) && Nested(keys)(b, a))
  {
    if keys != [] {
      AtMostOneWay(keys[1..], a, b);
    }
  }

  predicate ScoresBefore(a: Hit, b: Hit) {
    a.score > b.score || (a.score == b.score && a.position < b.position)
  }

  /** The order of the results: by the sort keys, or by falling score when there are none; ties in store order. */
  predicate InOrder(keys: seq<SortKey>, a: Hit, b: Hit) {
    if keys == [] then ScoresBefore(a, b) else Precedes(keys, a, b)
  }

  ghost predicate Arrangement(keys: seq<SortKey>, hits: seq<Hit>, arranged: seq<Hit>) {
    && multiset(arranged) == multiset(hits)
    && forall i, j :: 0 <= i < j < |arranged| ==> InOrder(keys, arranged[i], arranged[j])
  }

  lemma SortedByKeys(keys: seq<SortKey>, hits: seq<Hit>, arranged: seq<Hit>)
    requires keys != [] && Pairwise(ByPosition(), hits)
    ensures arranged == SortAll(keys, hits) <==> Arrangement(keys, hits, arranged)
  {
    var sorted := SortAll(keys, hits);
    SortAllPermutes(keys, hits);
    SortAllNested(keys, hits);
    forall a, b ensures Nested(keys)(a, b) <==> InOrder(keys, a, b) {
      NestedIsPrecedes(keys, a, b);
    }
    if Arrangement(keys, hits, arranged) {
      NestedAsymmetric(keys);
      StrictOrderUnique(Nested(keys), arranged, sorted);
    }
  }

  lemma SortedByScore(hits: seq<Hit>, arranged: seq<Hit>)
    requires Pairwise(ByPosition(), hits)
    ensures arranged == Sort(ByScore(), hits) <==> Arrangement([], hits, arranged)
  {
    var order := Then(ByScore(), ByPosition());
    SortPermutes(ByScore(), hits);
    SortOrders(ByScore(), ByPosition(), hits);
    assert forall a, b :: order(a, b) <==> InOrder([], a, b);
    if Arrangement([], hits, arranged) {
      StrictOrderUnique(order, arranged, Sort(ByScore(), hits));
    }
  }

  /** The ranked results are the one arrangement of the matching documents in lexicographic key order, ties in store order. */
  lemma ResultsAreLexicographic(store: seq<Entry>, q: Query, arranged: seq<Hit>)
    requires Ranked(Hits(store, q), q.sort).Returned?
    ensures arranged == Ranked(Hits(store, q), q.sort).value <==> Arrangement(q.sort, Hits(store, q), arranged)
  {
    HitsInStoreOrder(store, q);
    if q.sort == [] {
      SortedByScore(Hits(store, q), arranged);
    } else {
      SortedByKeys(q.sort, Hits(store, q), arranged);
    }
  }

  // The same order in terms of the values ---------------------------------------------

  /** What the documents have in a field, a missing field counting as the empty text. */
  function FieldOf(h: Hit, field: string): Value {
    if field in h.source then h.source[field] else Text("")
  }

  predicate Alike(a: Value, b: Value) {
    (a.Number? && b.Number?) || (a.Text? && b.Text?)
  }

  predicate Smaller(a: Value, b: Value) {
    if a.Number? && b.Number? then a.n < b.n else a.Text? && b.Text? && TextBefore(a.s, b.s)
  }

  predicate SaysDesc(order: string) {
    |order| == 4 && StandsAt(order, "desc", 0)
  }

  /** The key puts `a` before `b`. */
  predicate Decides(k: SortKey, a: Hit, b: Hit) {
    if SaysDesc(k.order) then Smaller(FieldOf(b, k.field), FieldOf(a, k.field))
    else Smaller(FieldOf(a, k.field), FieldOf(b, k.field))
  }

  /** `a` may come before `b`: by the first key that tells them apart, or else by score or place in the store. */
  ghost predicate RankedBefore(keys: seq<SortKey>, a: Hit, b: Hit) {
    if keys == [] then a.score > b.score || (a.score == b.score && a.position < b.position)
    else
      || (exists i :: 0 <= i < |keys| && Decides(keys[i], a, b)
            && forall j :: 0 <= j < i ==> !Decides(keys[j], a, b) && !Decides(keys[j], b, a))
      || (a.position < b.position && forall j :: 0 <= j < |keys| ==> !Decides(keys[j], a, b) && !Decides(keys[j], b, a))
  }

  lemma DescendingIff(k: SortKey)
    ensures Descending(k) <==> SaysDesc(k.order)
  {
    assert Lower("desc") == "desc";
    if |k.order| == 4 {
      OccursIffStands(k.order, "desc", 0);
      assert Lower(k.order)[0..4] == Lower(k.order);
    }
  }

  lemma DecidesIff(k: SortKey, a: Hit, b: Hit)
    requires Alike(FieldOf(a, k.field), FieldOf(b, k.field))
    ensures Decides(k, a, b) <==> !KeyAtMost(k, b, a)
  {
    DescendingIff(k);
    var x, y := FieldOf(a, k.field), FieldOf(b, k.field);
    if x.Text? {
      TextLessIff(x.s, y.s);
      TextLessIff(y.s, x.s);
    }
  }

  lemma InOrderIff(keys: seq<SortKey>, a: Hit, b: Hit)
    requires forall k :: k in keys ==> Alike(FieldOf(a, k.field), FieldOf(b, k.field))
    ensures InOrder(keys, a, b) <==> RankedBefore(keys, a, b)
  {
    forall i | 0 <= i < |keys|
      ensures Decides(keys[i], a, b) <==> !KeyAtMost(keys[i], b, a)
      ensures Decides(keys[i], b, a) <==> !KeyAtMost(keys[i], a, b)
    {
      assert keys[i] in keys;
      DecidesIff(keys[i], a, b);
      DecidesIff(keys[i], b, a);
    }
    if keys != [] && RankedBefore(keys, a, b) && !(a.position < b.position && forall j :: 0 <= j < |keys| ==> !Decides(keys[j], a, b) && !Decides(keys[j], b, a)) {
      var i :| 0 <= i < |keys| && Decides(keys[i], a, b)
        && forall j :: 0 <= j < i ==> !Decides(keys[j], a, b) && !Decides(keys[j], b, a);
      assert forall j :: 0 <= j < i ==> KeyEqual(keys[j], a, b);
    }
  }

  /** Ranking fails exactly when some key compares values of two documents that are neither both numbers nor both text. */
  lemma RankingFailsIff(hits: seq<Hit>, keys: seq<SortKey>)
    ensures Ranked(hits, keys).Failed? <==>
      exists i, j, k :: 0 <= i < j < |hits| && k in keys && !Alike(FieldOf(hits[i], k.field), FieldOf(hits[j], k.field))
  {
    forall k | k in keys
      ensures Comparable(hits, k.field) <==>
        forall i, j :: 0 <= i < j < |hits| ==> Alike(FieldOf(hits[i], k.field), FieldOf(hits[j], k.field))
    {
      ComparableIff(hits, k.field);
    }
  }

  lemma ComparableIff(hits: seq<Hit>, field: string)
    ensures Comparable(hits, field) <==>
      forall i, j :: 0 <= i < j < |hits| ==> Alike(FieldOf(hits[i], field), FieldOf(hits[j], field))
  {
    if Comparable(hits, field) {
      forall i, j | 0 <= i < j < |hits| ensures Alike(FieldOf(hits[i], field), FieldOf(hits[j], field)) {
        assert hits[i] in hits && hits[j] in hits;
        assert KeyValue(hits[i], field) == FieldOf(hits[i], field) && KeyValue(hits[j], field) == FieldOf(hits[j], field);
      }
    } else {
      var i, j := NotAlike(hits, field);
    }
  }

  lemma NotAlike(hits: seq<Hit>, field: string) returns (i: nat, j: nat)
    requires !Comparable(hits, field)
    ensures i < j < |hits| && !Alike(FieldOf(hits[i], field), FieldOf(hits[j], field))
  {
    var first := FieldOf(hits[0], field);
    i, j := 0, 1;
    if first.Number? {
      var h :| h in hits && !KeyValue(h, field).Number?;
      j :| 0 <= j < |hits| && hits[j] == h;
    } else if first.Text? {
      var h :| h in hits && !KeyValue(h, field).Text?;
      j :| 0 <= j < |hits| && hits[j] == h;
    }
  }

  /** Earlier results rank before later ones by what the documents hold. */
  lemma ResultsAreRanked(store: seq<Entry>, q: Query, i: nat, j: nat)
    requires Ranked(Hits(store, q), q.sort).Returned? && i < j < |Ranked(Hits(store, q), q.sort).value|
    ensures var all := Ranked(Hits(store, q), q.sort).value; RankedBefore(q.sort, all[i], all[j])
  {
    var hits, all := Hits(store, q), Ranked(Hits(store, q), q.sort).value;
    ResultsAreLexicographic(store, q, all);
    HitsInStoreOrder(store, q);
    PositionsDiffer(q.sort, hits, all);
    assert all[i] in all && all[j] in all;
    var a :| 0 <= a < |hits| && hits[a] == all[i];
    var b :| 0 <= b < |hits| && hits[b] == all[j];
    forall k | k in q.sort ensures Alike(FieldOf(all[i], k.field), FieldOf(all[j], k.field)) {
      ComparableIff(hits, k.field);
      assert a != b;
    }
    InOrderIff(q.sort, all[i], all[j]);
  }

  // ---------------------------------------------------------------------
  // Both ways to scroll
  // ---------------------------------------------------------------------

  lemma PageIsSlice<T>(s: seq<T>, page: nat, size: nat, from: nat)
    requires page >= 1 && size >= 1 && from == (page - 1) * size
    ensures Page(s, page, size) == Slice(s, from, from + size)
    ensures |Page(s, page, size)| == if from + size <= |s| then size else if from < |s| then |s| - from else 0
    ensures page * size == from + size
  {
  }

  /** Page `page` holds the elements from (page - 1) * size on. */
  lemma PageHolds<T>(s: seq<T>, page: int, size: nat, from: nat)
    requires page >= 1 && from == (page - 1) * size
    ensures |Page(s, page, size)| == if from >= |s| then 0 else if |s| - from < size then |s| - from else size
    ensures forall i :: 0 <= i < |Page(s, page, size)| ==> Page(s, page, size)[i] == s[from + i]
  {
  }

  /** Page 0 is empty; pages before it count from the end. */
  lemma PageFromEnd<T>(s: seq<T>, page: int, size: nat, end: nat)
    requires page <= 0 && end == -page * size
    ensures var p := Page(s, page, size);
      && |p| == (if page == 0 || end >= |s| then 0 else if end + size > |s| then |s| - end else size)
      && forall i :: 0 <= i < |p| ==> p[i] == s[|s| - end - |p| + i]
  {
    assert (page - 1) * size + size == 0 - end;
  }

  lemma {:induction false} PagesAreChunks<T>(s: seq<T>, page: nat, size: nat, from: nat)
    requires page >= 1 && size >= 1 && from == (page - 1) * size
    ensures PagesFrom(s, page, size) == ChunksFrom(s, from, size)
    decreases if from < |s| then |s| - from else 0
  {
    PageIsSlice(s, page, size, from);
    if from < |s| {
      ChunkStep(s, from, size);
      if from + size <= |s| {
        PagesAreChunks(s, page + 1, size, from + size);
      }
    }
  }

  /** Batches of a size below one: the default yields all but the last hits in one batch. */
  lemma PagesOfNegativeSize<T>(s: seq<T>, size: int)
    requires size <= 0
    ensures PagesFrom(s, 1, size) == if size < 0 && -size < |s| then [s[..|s| + size]] else []
  {
    if size < 0 && -size < |s| {
      assert Page(s, 1, size) == s[..|s| + size];
      assert Page(s, 2, size) == [];
    }
  }

  lemma {:induction false} ChunksCover<T>(s: seq<T>, size: nat)
    requires size >= 1
    ensures Flatten(Chunks(s, size)) == s
    ensures forall i :: 0 <= i < |Chunks(s, size)| ==> 0 < |Chunks(s, size)[i]| <= size
    ensures forall i :: 0 <= i < |Chunks(s, size)| - 1 ==> |Chunks(s, size)[i]| == size
    decreases |s|
  {
    if |s| > size {
      ChunksCover(s[size..], size);
      assert s == s[..size] + s[size..];
      FlattenFirst(s[..size], Chunks(s[size..], size));
    } else if s != [] {
      assert Chunks(s, size) == [s];
      FlattenFirst(s, []);
      assert [s] + [] == [s];
    }
  }

  /** Scrolling page by page gives the batches of the overriding scroll exactly for sizes that page forward. */
  lemma ScrollsAgreeIff(store: seq<Entry>, q: Query, size: int)
    ensures PagedScroll(store, q, size) == ChunkedScroll(store, q, size)
      <==> size >= 1 || Ranked(Hits(store, q), q.sort).Failed?
           || (size < 0 && |Hits(store, q)| <= -size)
  {
    var ranked := Ranked(Hits(store, q), q.sort);
    if ranked.Returned? {
      var all := ranked.value;
      SortAllMembers(q.sort, Hits(store, q));
      SortPermutes(ByScore(), Hits(store, q));
      assert |all| == |Hits(store, q)|;
      if size >= 1 {
        PagesAreChunks(all, 1, size, 0);
        assert all[0..] == all;
      } else {
        PagesOfNegativeSize(all, size);
      }
    }
  }
}
