/** The full-text index wrapper (src-tauri/src/search.rs). The tantivy index is its
    committed documents; the reader is a snapshot of them that changes only when
    reloaded; a writer batches documents until it commits. Tokenising, BM25 scoring,
    query parsing and regex matching belong to the engine and are abstract `Engine`
    functions. */
module Search {
  import opened Wrappers

  /** A stored document: the five stored fields, any of which may be missing. */
  datatype Doc = Doc(name: Option<string>, path: Option<string>, size: Option<nat>,
                     modified: Option<int>, isFolder: Option<bool>)

  datatype FieldType = Text | Unsigned | Date | Boolean

  /** A schema field: its name and type, whether it is indexed for search and whether it is stored. */
  datatype SchemaField = SchemaField(name: string, fieldType: FieldType, indexed: bool, stored: bool)

  /** The schema `SearchIndex::new` builds: `name` and `path` as TEXT | STORED, the rest STORED only. */
  const FileSchema: seq<SchemaField> := [
    SchemaField("name", Text, true, true),
    SchemaField("path", Text, true, true),
    SchemaField("size", Unsigned, false, true),
    SchemaField("modified", Date, false, true),
    SchemaField("is_folder", Boolean, false, true)
  ]

  /** The hard cap on the number of hits. */
  const MaxResults: nat := 1000

  /** The boosts a parsed query gives the name and path fields. */
  const NameBoost: nat := 2
  const PathBoost: nat := 1

  /** The engine's behaviour: whether a pattern compiles as a tantivy regex, whether
      it matches a name, whether the query parser accepts a text, and the relevance a
      parsed text gives a field's value (0 when it does not match it). */
  datatype Engine = Engine(
    regexCompiles: string -> bool,
    regexMatches: (string, string) -> bool,
    queryParses: string -> bool,
    relevance: (string, string) -> nat)

  /** A compiled query: a regex over one field, or a parsed query over boosted fields. */
  datatype Query =
    | RegexQuery(pattern: string, field: string)
    | ParsedQuery(text: string, boosts: seq<(string, nat)>)

  /** Query construction failed (`RegexQuery::from_pattern` or `parse_query` returned
      an error), or the collector's search returned an error. */
  datatype SearchError = QueryRejected | CollectorFailed

  function Min(a: nat, b: nat): nat {
    if a <= b then a else b
  }

  // ---- the empty-query guard ----

  /** Rust's `char::is_whitespace`: the Unicode White_Space characters. */
  predicate IsWhitespace(c: char) {
    || '\U{9}' <= c <= '\U{D}' || c == ' ' || c == '\U{85}' || c == '\U{A0}'
    || c == '\U{1680}' || '\U{2000}' <= c <= '\U{200A}' || c == '\U{2028}' || c == '\U{2029}'
    || c == '\U{202F}' || c == '\U{205F}' || c == '\U{3000}'
  }

  function TrimStart(s: string): (r: string)
    ensures r != [] ==> !IsWhitespace(r[0])
  {
    if s != [] && IsWhitespace(s[0]) then TrimStart(s[1..]) else s
  }

  function TrimEnd(s: string): string {
    if s != [] && IsWhitespace(s[|s| - 1]) then TrimEnd(s[..|s| - 1]) else s
  }

  /** `str::trim`. */
  function Trim(s: string): string {
    TrimEnd(TrimStart(s))
  }

  lemma {:induction false} TrimStartEmpty(s: string)
    ensures TrimStart(s) == [] <==> forall i | 0 <= i < |s| :: IsWhitespace(s[i])
  {
    if s != [] {
      TrimStartEmpty(s[1..]);
      if IsWhitespace(s[0]) {
        assert forall i | 1 <= i < |s| :: s[i] == s[1..][i - 1];
      }
    }
  }

  lemma {:induction false} TrimEndKeepsFirst(s: string)
    requires s != [] && !IsWhitespace(s[0])
    ensures TrimEnd(s) != []
  {
    if |s| > 1 && IsWhitespace(s[|s| - 1]) {
      TrimEndKeepsFirst(s[..|s| - 1]);
    }
  }

  /** A query is blank, and `search` returns nothing for it, exactly when every
      character is whitespace (the empty query included). */
  lemma BlankIffAllWhitespace(s: string)
    ensures Trim(s) == [] <==> forall i | 0 <= i < |s| :: IsWhitespace(s[i])
  {
    TrimStartEmpty(s);
    if TrimStart(s) != [] {
      TrimEndKeepsFirst(TrimStart(s));
    }
  }

  // ---- queries and scores ----

  /** The query `search` builds: a regex over `name` only, or a parsed query over
      `name` and `path` boosted 2 and 1. */
  function BuildQuery(text: string, useRegex: bool, engine: Engine): Result<Query, SearchError> {
    if useRegex then
      if engine.regexCompiles(text) then Ok(RegexQuery(text, "name")) else Err(QueryRejected)
    else
      if engine.queryParses(text) then Ok(ParsedQuery(text, [("name", NameBoost), ("path", PathBoost)]))
      else Err(QueryRejected)
  }

  function FieldText(d: Doc, field: string): Option<string> {
    if field == "name" then d.name else if field == "path" then d.path else None
  }

  function FieldRelevance(text: string, field: string, d: Doc, engine: Engine): nat {
    match FieldText(d, field)
    case Some(t) => engine.relevance(text, t)
    case None => 0
  }

  /** Sum of the field relevances, each multiplied by its field's boost. */
  function BoostedScore(text: string, boosts: seq<(string, nat)>, d: Doc, engine: Engine): nat {
    if boosts == [] then 0
    else boosts[0].1 * FieldRelevance(text, boosts[0].0, d, engine) + BoostedScore(text, boosts[1..], d, engine)
  }

  predicate Matches(q: Query, d: Doc, engine: Engine) {
    match q
    case RegexQuery(pattern, field) => FieldText(d, field).Some? && engine.regexMatches(pattern, FieldText(d, field).value)
    case ParsedQuery(text, boosts) => BoostedScore(text, boosts, d, engine) > 0
  }

  /** A regex query scores every match alike; a parsed query sums its boosted relevances. */
  function Score(q: Query, d: Doc, engine: Engine): nat {
    match q
    case RegexQuery(_, _) => 1
    case ParsedQuery(text, boosts) => BoostedScore(text, boosts, d, engine)
  }

  /** Text mode weighs a name match twice as much as a path match. */
  lemma TextQueryWeights(text: string, d: Doc, engine: Engine)
    requires engine.queryParses(text)
    ensures BuildQuery(text, false, engine).Ok?
    ensures Score(BuildQuery(text, false, engine).value, d, engine)
         == 2 * FieldRelevance(text, "name", d, engine) + FieldRelevance(text, "path", d, engine)
  {
    var boosts: seq<(string, nat)> := [("name", NameBoost), ("path", PathBoost)];
    assert BuildQuery(text, false, engine).value.boosts == boosts;
    assert boosts[1..][1..] == [];
    assert BoostedScore(text, boosts[1..], d, engine) == FieldRelevance(text, "path", d, engine);
  }

  /** Regex mode looks at the name only: documents that share a name match alike and
      score alike, whatever their paths. */
  lemma RegexLooksAtNameOnly(pattern: string, d1: Doc, d2: Doc, engine: Engine)
    requires engine.regexCompiles(pattern) && d1.name == d2.name
    ensures BuildQuery(pattern, true, engine).Ok?
    ensures var q := BuildQuery(pattern, true, engine).value;
      Matches(q, d1, engine) == Matches(q, d2, engine) && Score(q, d1, engine) == Score(q, d2, engine)
  {
  }

  // ---- the top-docs collector ----

  /** A collected hit: the score and the address of the document in the snapshot. */
  datatype Hit = Hit(score: nat, address: nat)

  /** Collector order: higher score first, ties by lower address. */
  predicate Before(a: Hit, b: Hit) {
    a.score > b.score || (a.score == b.score && a.address < b.address)
  }

  predicate Ranked(hs: seq<Hit>) {
    forall i, j | 0 <= i < j < |hs| :: Before(hs[i], hs[j])
  }

  /** The matching documents in address order, each with its score: every hit is a
      match, and every match is a hit. */
  function Candidates(docs: seq<Doc>, q: Query, engine: Engine): (hs: seq<Hit>)
    ensures forall i | 0 <= i < |hs| ::
      hs[i].address < |docs| && Matches(q, docs[hs[i].address], engine)
      && hs[i].score == Score(q, docs[hs[i].address], engine)
    ensures forall i, j | 0 <= i < j < |hs| :: hs[i].address < hs[j].address
  {
    if docs == [] then []
    else
      var n := |docs| - 1;
      var init := Candidates(docs[..n], q, engine);
      assert forall a | 0 <= a < n :: docs[..n][a] == docs[a];
      init + (if Matches(q, docs[n], engine) then [Hit(Score(q, docs[n], engine), n)] else [])
  }

  /** Every match is a candidate. */
  lemma {:induction false} CandidatesComplete(docs: seq<Doc>, q: Query, engine: Engine, a: nat)
    requires a < |docs| && Matches(q, docs[a], engine)
    ensures exists i :: 0 <= i < |Candidates(docs, q, engine)| && Candidates(docs, q, engine)[i].address == a
  {
    var n := |docs| - 1;
    var init := Candidates(docs[..n], q, engine);
    var tail := if Matches(q, docs[n], engine) then [Hit(Score(q, docs[n], engine), n)] else [];
    var hs := Candidates(docs, q, engine);
    assert hs == init + tail;
    if a < n {
      assert docs[..n][a] == docs[a];
      CandidatesComplete(docs[..n], q, engine, a);
      var i :| 0 <= i < |init| && init[i].address == a;
      assert hs[i] == init[i];
    } else {
      assert |tail| == 1 && tail[0].address == a;
      assert hs[|init|] == tail[0];
    }
  }

  function Insert(hs: seq<Hit>, h: Hit): seq<Hit> {
    if hs == [] then [h]
    else if Before(h, hs[0]) then [h] + hs
    else [hs[0]] + Insert(hs[1..], h)
  }

  /** Ranks hits by insertion. */
  function SortHits(hs: seq<Hit>): seq<Hit> {
    if hs == [] then [] else Insert(SortHits(hs[..|hs| - 1]), hs[|hs| - 1])
  }

  lemma {:induction false} InsertPermutes(hs: seq<Hit>, h: Hit)
    ensures multiset(Insert(hs, h)) == multiset(hs) + multiset{h}
  {
    if hs != [] && !Before(h, hs[0]) {
      InsertPermutes(hs[1..], h);
      assert hs == [hs[0]] + hs[1..];
    }
  }

  lemma {:induction false} InsertRanked(hs: seq<Hit>, h: Hit)
    requires Ranked(hs)
    requires forall i | 0 <= i < |hs| :: hs[i].address != h.address
    ensures Ranked(Insert(hs, h))
  {
    if hs != [] && !Before(h, hs[0]) {
      var rest := Insert(hs[1..], h);
      InsertRanked(hs[1..], h);
      InsertPermutes(hs[1..], h);
      forall k | 0 <= k < |rest| ensures Before(hs[0], rest[k]) {
        assert rest[k] in multiset(rest);
        if rest[k] != h {
          assert rest[k] in multiset(hs[1..]);
          var j :| 0 <= j < |hs[1..]| && hs[1..][j] == rest[k];
          assert hs[j + 1] == rest[k];
        }
      }
    }
  }

  lemma {:induction false} SortHitsRanked(hs: seq<Hit>)
    requires forall i, j | 0 <= i < j < |hs| :: hs[i].address != hs[j].address
    ensures Ranked(SortHits(hs)) && multiset(SortHits(hs)) == multiset(hs)
  {
    if hs != [] {
      var n := |hs| - 1;
      var init, last := hs[..n], hs[n];
      assert forall i | 0 <= i < n :: init[i] == hs[i];
      SortHitsRanked(init);
      var sorted := SortHits(init);
      forall i | 0 <= i < |sorted| ensures sorted[i].address != last.address {
        assert sorted[i] in multiset(init);
        var j :| 0 <= j < n && init[j] == sorted[i];
        assert hs[j].address != hs[n].address;
      }
      InsertRanked(sorted, last);
      InsertPermutes(sorted, last);
      assert hs == init + [last];
    }
  }

  /** `TopDocs::with_limit(limit)`: the `limit` best-ranked matches, best first. */
  function TopDocs(docs: seq<Doc>, q: Query, engine: Engine, limit: nat): (hits: seq<Hit>)
    ensures |hits| <= limit
    ensures forall i | 0 <= i < |hits| :: hits[i].address < |docs|
  {
    var cands := Candidates(docs, q, engine);
    var ranked := SortHits(cands);
    SortHitsRanked(cands);
    assert forall i | 0 <= i < |ranked| :: ranked[i] in multiset(cands);
    ranked[..Min(limit, |ranked|)]
  }

  /** The collector's hits are matches, with their scores, in ranking order. */
  lemma TopDocsRanked(docs: seq<Doc>, q: Query, engine: Engine, limit: nat)
    ensures var hits := TopDocs(docs, q, engine, limit);
      && Ranked(hits)
      && forall i | 0 <= i < |hits| ::
           Matches(q, docs[hits[i].address], engine) && hits[i].score == Score(q, docs[hits[i].address], engine)
  {
    var cands := Candidates(docs, q, engine);
    var ranked := SortHits(cands);
    SortHitsRanked(cands);
    var hits := TopDocs(docs, q, engine, limit);
    assert hits == ranked[..Min(limit, |ranked|)];
    forall i | 0 <= i < |hits|
      ensures Matches(q, docs[hits[i].address], engine) && hits[i].score == Score(q, docs[hits[i].address], engine)
    {
      assert hits[i] == ranked[i];
      assert ranked[i] in multiset(cands);
    }
  }

  /** The collector keeps the best: a match is among the hits, or the hits fill the
      limit and every one of them ranks above it. With no more matches than the
      limit, no match is left out. */
  lemma TopDocsKeepsBest(docs: seq<Doc>, q: Query, engine: Engine, limit: nat, a: nat)
    requires a < |docs| && Matches(q, docs[a], engine)
    ensures var hits := TopDocs(docs, q, engine, limit);
      || (exists i :: 0 <= i < |hits| && hits[i].address == a)
      || (|hits| == limit && forall i | 0 <= i < |hits| :: Before(hits[i], Hit(Score(q, docs[a], engine), a)))
  {
    var cands := Candidates(docs, q, engine);
    var ranked := SortHits(cands);
    SortHitsRanked(cands);
    var hits := TopDocs(docs, q, engine, limit);
    assert hits == ranked[..Min(limit, |ranked|)];
    CandidatesComplete(docs, q, engine, a);
    var j :| 0 <= j < |cands| && cands[j].address == a;
    assert cands[j] in multiset(ranked);
    var p :| 0 <= p < |ranked| && ranked[p] == cands[j];
    if p < |hits| {
      assert hits[p].address == a;
    } else {
      forall i | 0 <= i < |hits| ensures Before(hits[i], Hit(Score(q, docs[a], engine), a)) {
        assert hits[i] == ranked[i];
      }
    }
  }

  /** `searcher.doc` for each hit, in hit order. */
  function Retrieve(docs: seq<Doc>, hits: seq<Hit>): seq<Doc>
    requires forall i | 0 <= i < |hits| :: hits[i].address < |docs|
  {
    seq(|hits|, i requires 0 <= i < |hits| => docs[hits[i].address])
  }

  /** What `search` returns over the documents `docs` that the reloaded reader sees. */
  function SearchResults(docs: seq<Doc>, query: string, useRegex: bool, limit: nat, engine: Engine)
    : Result<seq<Doc>, SearchError>
  {
    if Trim(query) == [] then Ok([])
    else
      match BuildQuery(query, useRegex, engine)
      case Err(e) => Err(e)
      case Ok(q) => Ok(Retrieve(docs, TopDocs(docs, q, engine, Min(limit, MaxResults))))
  }

  /** What `search` returns when `collectorFails` says whether the collector's search
      fails: a blank query still returns nothing without searching, and a query that
      does not build still fails on construction; any other query then fails. */
  function SearchOutcome(docs: seq<Doc>, query: string, useRegex: bool, limit: nat, engine: Engine,
                         collectorFails: bool): Result<seq<Doc>, SearchError>
  {
    if collectorFails && Trim(query) != [] then
      match BuildQuery(query, useRegex, engine)
      case Err(e) => Err(e)
      case Ok(_) => Err(CollectorFailed)
    else SearchResults(docs, query, useRegex, limit, engine)
  }

  /** Results are at most `min(limit, 1000)` matching documents of the snapshot in
      descending score order; in regex mode, where every match scores alike, they come
      in address order. */
  lemma SearchResultsBounded(docs: seq<Doc>, query: string, useRegex: bool, limit: nat, engine: Engine)
    ensures var r := SearchResults(docs, query, useRegex, limit, engine);
      r.Ok? ==> |r.value| <= Min(limit, MaxResults)
    ensures var r := SearchResults(docs, query, useRegex, limit, engine);
      r.Ok? && Trim(query) != [] ==>
        var q := BuildQuery(query, useRegex, engine).value;
        && (forall i | 0 <= i < |r.value| :: r.value[i] in docs && Matches(q, r.value[i], engine))
        && (forall i, j | 0 <= i < j < |r.value| :: Score(q, r.value[i], engine) >= Score(q, r.value[j], engine))
    ensures var r := SearchResults(docs, query, useRegex, limit, engine);
      r.Ok? && Trim(query) != [] && useRegex ==>
        var hits := TopDocs(docs, BuildQuery(query, useRegex, engine).value, engine, Min(limit, MaxResults));
        forall i, j | 0 <= i < j < |hits| :: hits[i].address < hits[j].address
  {
    var r := SearchResults(docs, query, useRegex, limit, engine);
    if r.Ok? && Trim(query) != [] {
      var q := BuildQuery(query, useRegex, engine).value;
      var hits := TopDocs(docs, q, engine, Min(limit, MaxResults));
      TopDocsRanked(docs, q, engine, Min(limit, MaxResults));
      assert r.value == Retrieve(docs, hits);
      forall i, j | 0 <= i < j < |r.value|
        ensures Score(q, r.value[i], engine) >= Score(q, r.value[j], engine)
      {
        assert Before(hits[i], hits[j]);
      }
    }
  }

  /** Among two matches of a text query, one that matches by name outranks one that
      matches only by path with the same relevance. */
  lemma NameMatchOutranksPathMatch(text: string, d1: Doc, d2: Doc, engine: Engine)
    requires engine.queryParses(text)
    requires FieldRelevance(text, "name", d1, engine) == FieldRelevance(text, "path", d2, engine) > 0
    requires FieldRelevance(text, "name", d2, engine) == 0
    ensures var q := BuildQuery(text, false, engine).value;
      Matches(q, d1, engine) && Matches(q, d2, engine) && Score(q, d1, engine) > Score(q, d2, engine)
  {
    TextQueryWeights(text, d1, engine);
    TextQueryWeights(text, d2, engine);
  }

  /** `SearchIndex`: the index, its manually reloaded reader and the schema. */
  class SearchIndex {
    const schema: seq<SchemaField>
    var committed: seq<Doc>
    var snapshot: seq<Doc>

    /** `SearchIndex::new`: opens the index found at the path (`existing`, its
        committed documents) or creates an empty one; the reader starts at the
        committed state. */
    constructor (existing: Option<seq<Doc>>)
      ensures schema == FileSchema
      ensures committed == existing.GetOr([]) && snapshot == committed
    {
      schema := FileSchema;
      committed := existing.GetOr([]);
      snapshot := existing.GetOr([]);
    }

    /** `writer`: a fresh writer with nothing pending. */
    method Writer() returns (w: IndexWriter)
      ensures fresh(w) && w.index == this && w.pending == []
    {
      w := new IndexWriter(this);
    }

    /** `reload`: the reader catches up with the last commit. */
    method Reload()
      modifies this`snapshot
      ensures snapshot == committed
    {
      snapshot := committed;
    }

    /** `search`: nothing for a blank query, without touching the reader; otherwise
        the reader is reloaded first, so every committed document is searched.
        `collectorFails` says whether the collector's search fails. */
    method Search(query: string, useRegex: bool, limit: nat, engine: Engine, collectorFails: bool)
      returns (r: Result<seq<Doc>, SearchError>)
      modifies this`snapshot
      ensures Trim(query) == [] ==> r == Ok([]) && snapshot == old(snapshot)
      ensures Trim(query) != [] ==> snapshot == committed
      ensures collectorFails && Trim(query) != [] ==> r.Err?
      ensures !collectorFails ==> r == SearchResults(committed, query, useRegex, limit, engine)
      ensures r == SearchOutcome(committed, query, useRegex, limit, engine, collectorFails)
    {
      if Trim(query) == [] {
        return Ok([]);
      }
      Reload();
      var built := BuildQuery(query, useRegex, engine);
      if built.Err? {
        return Err(built.error);
      }
      if collectorFails {
        return Err(CollectorFailed);
      }
      var q := built.value;
      var hits := TopDocs(snapshot, q, engine, Min(limit, MaxResults));
      var results: seq<Doc> := [];
      for i := 0 to |hits|
        invariant |results| == i
        invariant forall j | 0 <= j < i :: results[j] == snapshot[hits[j].address]
      {
        results := results + [snapshot[hits[i].address]];
      }
      assert results == Retrieve(snapshot, hits);
      r := Ok(results);
    }
  }

  /** The index writer: documents stay pending until the commit. */
  class IndexWriter {
    const index: SearchIndex
    var pending: seq<Doc>

    constructor (index: SearchIndex)
      ensures this.index == index && pending == []
    {
      this.index := index;
      pending := [];
    }

    method AddDocument(doc: Doc)
      modifies this
      ensures pending == old(pending) + [doc]
    {
      pending := pending + [doc];
    }

    /** `commit`: the pending documents join the index; readers see them only after a reload. */
    method Commit()
      modifies this, index`committed
      ensures index.committed == old(index.committed) + old(pending)
      ensures pending == [] && index.snapshot == old(index.snapshot)
    {
      index.committed := index.committed + pending;
      pending := [];
    }
  }
}
