/** The knowledge base: the vector-store repository (`KnowledgeRepository` in
    `src/database/repositories.py`) and the service over it (`KnowledgeBaseService` in
    `src/services/knowledge_base.py`). The embedding model and the store's similarity
    search are oracles: functions supplied by the caller. */
module Knowledge {
  import opened Wrappers
  import opened Strings
  import opened Slices

  /** Chunk metadata (`dict`); only string values are modelled. */
  type Metadata = map<string, string>

  /** An embedding vector; its numbers are opaque to the bot. */
  type Embedding = seq<real>

  /** `KnowledgeSearchResult`. */
  datatype SearchResult = SearchResult(content: string, metadata: Metadata, similarity: real)

  /** One row of the `match_knowledge` response; an absent key is `None`. */
  datatype Row = Row(content: Option<string>, metadata: Option<Metadata>, similarity: Option<real>)

  /** A stored chunk of the `knowledge_embeddings` table. */
  datatype StoredChunk = StoredChunk(id: int, content: string, embedding: Embedding, metadata: Metadata)

  /** The embedding model: `None` where the embedding call fails. */
  type Embedder = string -> Option<Embedding>

  /** The `match_knowledge` procedure, given the embedding, the threshold and the count:
      `None` where the call raises. */
  type MatchRpc = (Embedding, real, int) -> Option<seq<Row>>

  /** A call made to the store, recorded to state what the service passes on. */
  datatype StoreCall = MatchKnowledge(embedding: Embedding, threshold: real, count: int)

  const RepositoryThreshold: real := 0.7
  const ServiceThreshold: real := 0.3
  const DefaultLimit := 5

  // ---------------------------------------------------------------------------
  // KnowledgeRepository.search
  // ---------------------------------------------------------------------------

  /** A row has the keys the mapping reads with `item[...]`. */
  predicate Complete(row: Row) {
    row.content.Some? && row.similarity.Some?
  }

  /** The result a complete row maps to, metadata defaulting to `{}`. */
  function ToResult(row: Row): SearchResult
    requires Complete(row)
  {
    SearchResult(row.content.value, row.metadata.GetOr(map[]), row.similarity.value)
  }

  function MapRows(rows: seq<Row>): (r: seq<SearchResult>)
    requires forall k | 0 <= k < |rows| :: Complete(rows[k])
    ensures |r| == |rows|
    ensures forall k | 0 <= k < |rows| :: r[k] == ToResult(rows[k])
  {
    if rows == [] then [] else [ToResult(rows[0])] + MapRows(rows[1..])
  }

  /** `KnowledgeRepository.search` given the procedure's response: the rows mapped in order,
      or nothing when the call raised, returned no rows, or a row lacks a key. */
  function RepositorySearch(response: Option<seq<Row>>): (r: seq<SearchResult>)
    ensures response.None? ==> r == []
    ensures response.Some? && (exists k | 0 <= k < |response.value| :: !Complete(response.value[k])) ==> r == []
    ensures response.Some? && (forall k | 0 <= k < |response.value| :: Complete(response.value[k])) ==>
              |r| == |response.value| &&
              forall k | 0 <= k < |r| ::
                && Some(r[k].content) == response.value[k].content
                && r[k].metadata == response.value[k].metadata.GetOr(map[])
                && Some(r[k].similarity) == response.value[k].similarity
  {
    match response
    case None => []
    case Some(rows) =>
      if forall k | 0 <= k < |rows| :: Complete(rows[k]) then MapRows(rows) else []
  }

  // ---------------------------------------------------------------------------
  // KnowledgeBaseService
  // ---------------------------------------------------------------------------

  datatype Search = Search(results: seq<SearchResult>, calls: seq<StoreCall>)

  /** `search(query, limit, similarity_threshold)`: embed the query; without an embedding
      (failed or empty) the store is not consulted; otherwise one `match_knowledge` call
      with the limit and threshold as given, its results returned unchanged. */
  function SearchKnowledgeBase(query: string, limit: int, threshold: real, embed: Embedder, rpc: MatchRpc): (r: Search)
    ensures embed(query).None? || embed(query).value == [] ==> r == Search([], [])
    ensures embed(query).Some? && embed(query).value != [] ==>
              var e := embed(query).value;
              r.calls == [MatchKnowledge(e, threshold, limit)] && r.results == RepositorySearch(rpc(e, threshold, limit))
  {
    match embed(query)
    case None => Search([], [])
    case Some(e) =>
      if e == [] then Search([], [])
      else Search(RepositorySearch(rpc(e, threshold, limit)), [MatchKnowledge(e, threshold, limit)])
  }

  /** `add_document`: embed, then insert once with metadata defaulting to `{}`; `false` and
      no change when the embedding fails or is empty, or the insert fails. The store picks
      the new row's id. */
  function AddDocument(table: seq<StoredChunk>, content: string, metadata: Option<Metadata>, embed: Embedder,
                       newId: int, insertFails: bool): (r: (bool, seq<StoredChunk>))
    ensures !r.0 ==> r.1 == table
    ensures r.0 <==> embed(content).Some? && embed(content).value != [] && !insertFails
    ensures r.0 ==> r.1 == table + [StoredChunk(newId, content, embed(content).value, metadata.GetOr(map[]))]
  {
    match embed(content)
    case None => (false, table)
    case Some(e) =>
      if e == [] || insertFails then (false, table)
      else (true, table + [StoredChunk(newId, content, e, metadata.GetOr(map[]))])
  }

  /** The rows `delete().neq("id", 0)` leaves: those whose id is 0. */
  function RowsWithIdZero(table: seq<StoredChunk>): (r: seq<StoredChunk>)
    ensures forall k | 0 <= k < |r| :: r[k].id == 0 && r[k] in table
    ensures forall k | 0 <= k < |table| :: table[k].id == 0 ==> table[k] in r
  {
    if table == [] then []
    else if table[0].id == 0 then [table[0]] + RowsWithIdZero(table[1..])
    else RowsWithIdZero(table[1..])
  }

  /** `clear_all`: delete every row whose id is not 0; `false` and no change on failure. */
  function ClearAll(table: seq<StoredChunk>, fails: bool): (r: (bool, seq<StoredChunk>))
    ensures r.0 <==> !fails
    ensures !r.0 ==> r.1 == table
    ensures r.0 ==> forall k | 0 <= k < |r.1| :: r.1[k].id == 0 && r.1[k] in table
    ensures r.0 ==> forall k | 0 <= k < |table| :: table[k].id == 0 ==> table[k] in r.1
  {
    if fails then (false, table) else (true, RowsWithIdZero(table))
  }

  /** With the store's positive row ids, clearing empties the table. */
  lemma ClearAllEmpties(table: seq<StoredChunk>)
    requires forall k | 0 <= k < |table| :: table[k].id > 0
    ensures ClearAll(table, false) == (true, [])
  {
    var rest := RowsWithIdZero(table);
    if rest != [] {
      assert rest[0] in table;
    }
  }

  // ---------------------------------------------------------------------------
  // format_context
  // ---------------------------------------------------------------------------

  const ContextSeparator := "\n\n---\n\n"
  const DefaultMaxLength := 3000

  /** `metadata.get("source", "")`. */
  function SourceOf(metadata: Metadata): string {
    if "source" in metadata then metadata["source"] else ""
  }

  /** The label put in front of a result that names its source. */
  function SourceLabel(source: string): string {
    "[منبع: " + source + "]\n"
  }

  /** One result as it appears in the context: stripped, labelled with its source if any. */
  function Part(result: SearchResult): string {
    var content := Strip(result.content);
    var source := SourceOf(result.metadata);
    if source != "" then SourceLabel(source) + content else content
  }

  /** A part ends with the stripped content, and is longer than it exactly when the result
      names a source, in which case it starts with the source label. */
  lemma PartLabelled(result: SearchResult)
    ensures var p := Part(result);
            var content := Strip(result.content);
            var source := SourceOf(result.metadata);
            && |p| >= |content| && p[|p| - |content|..] == content
            && (|p| > |content| <==> source != "")
            && (source != "" ==> p[..|SourceLabel(source)|] == SourceLabel(source))
  {
  }

  /** A part cut to fit: a proper prefix of more than 100 characters, followed by "...". */
  predicate Truncation(p: string, full: string) {
    && |p| > 103 && p[|p| - 3..] == "..."
    && |p| - 3 < |full| && p[..|p| - 3] == full[..|p| - 3]
  }

  /** Every result as a part, in order. */
  function Parts(results: seq<SearchResult>): (ps: seq<string>)
    ensures |ps| == |results|
    ensures forall i | 0 <= i < |results| :: ps[i] == Part(results[i])
  {
    if results == [] then [] else [Part(results[0])] + Parts(results[1..])
  }

  /** The loop of `format_context` over the parts, with `total` the budget used so far:
      a part that fits is kept and charged its length plus 10; the first that does not fit
      is cut to the remaining budget and marked with "..." if more than 100 characters
      remain, and the loop stops. */
  function Budgeted(items: seq<string>, total: int, maxLength: int): (kept: seq<string>)
    ensures |kept| <= |items|
    decreases |items|
  {
    if items == [] then []
    else
      var c := items[0];
      if total + |c| > maxLength then
        var remaining := maxLength - total;
        if remaining > 100 then [Take(c, remaining) + "..."] else []
      else [c] + Budgeted(items[1..], total + |c| + 10, maxLength)
  }

  /** Every part kept before the last is the item at its position. */
  lemma {:induction false} BudgetedKeepsWhole(items: seq<string>, total: int, maxLength: int)
    ensures var kept := Budgeted(items, total, maxLength);
            forall i | 0 <= i < |kept| - 1 :: kept[i] == items[i]
    decreases |items|
  {
    if items != [] {
      var c := items[0];
      if total + |c| <= maxLength {
        var rest := Budgeted(items[1..], total + |c| + 10, maxLength);
        BudgetedKeepsWhole(items[1..], total + |c| + 10, maxLength);
        var kept := [c] + rest;
        assert Budgeted(items, total, maxLength) == kept;
        forall i | 1 <= i < |kept| - 1
          ensures kept[i] == items[i]
        {
          assert kept[i] == rest[i - 1];
        }
      }
    }
  }

  /** The last part kept is its item, whole or truncated. */
  lemma {:induction false} BudgetedLast(items: seq<string>, total: int, maxLength: int)
    ensures var kept := Budgeted(items, total, maxLength);
            kept != [] ==> kept[|kept| - 1] == items[|kept| - 1] || Truncation(kept[|kept| - 1], items[|kept| - 1])
    decreases |items|
  {
    if items != [] {
      var c := items[0];
      if total + |c| > maxLength {
        var remaining := maxLength - total;
        if remaining > 100 {
          var p := Take(c, remaining) + "...";
          assert p[..|p| - 3] == Take(c, remaining);
        }
      } else {
        var rest := Budgeted(items[1..], total + |c| + 10, maxLength);
        BudgetedLast(items[1..], total + |c| + 10, maxLength);
        var kept := [c] + rest;
        assert Budgeted(items, total, maxLength) == kept;
        if rest != [] {
          assert kept[|kept| - 1] == rest[|rest| - 1];
          assert items[|kept| - 1] == items[1..][|rest| - 1];
        }
      }
    }
  }

  /** The loop keeps a prefix of the parts, cutting at most the last one. */
  lemma BudgetedPrefix(items: seq<string>, total: int, maxLength: int)
    ensures var kept := Budgeted(items, total, maxLength);
            && (forall i | 0 <= i < |kept| - 1 :: kept[i] == items[i])
            && (kept != [] ==> kept[|kept| - 1] == items[|kept| - 1] || Truncation(kept[|kept| - 1], items[|kept| - 1]))
  {
    BudgetedKeepsWhole(items, total, maxLength);
    BudgetedLast(items, total, maxLength);
  }

  /** `format_context(results, max_length)`: the empty string for no results, otherwise the
      parts the budget keeps joined by the separator, which is empty or at most three
      characters over the budget. */
  function FormatContext(results: seq<SearchResult>, maxLength: int): (r: string)
    ensures results == [] ==> r == ""
    ensures r == "" || |r| <= maxLength + 3
  {
    if results == [] then ""
    else
      BudgetedLength(Parts(results), 0, maxLength);
      Join(Budgeted(Parts(results), 0, maxLength), ContextSeparator)
  }

  lemma JoinCons(c: string, rest: seq<string>, sep: string)
    requires rest != []
    ensures Join([c] + rest, sep) == c + sep + Join(rest, sep)
  {
    assert ([c] + rest)[1..] == rest;
  }

  /** The parts kept with `total` of the budget spent join to at most
      `maxLength - total + 3` characters: each part's charge of 10 covers the 7-character
      separator after it, and only a truncated last part can go over, by its "...". */
  lemma {:induction false} BudgetedLength(items: seq<string>, total: int, maxLength: int)
    ensures var kept := Budgeted(items, total, maxLength);
            kept == [] || |Join(kept, ContextSeparator)| <= maxLength - total + 3
    decreases |items|
  {
    var kept := Budgeted(items, total, maxLength);
    if items != [] {
      var c := items[0];
      if total + |c| > maxLength {
        var remaining := maxLength - total;
        if remaining > 100 {
          assert kept == [Take(c, remaining) + "..."];
          assert Join(kept, ContextSeparator) == kept[0];
        }
      } else {
        var rest := Budgeted(items[1..], total + |c| + 10, maxLength);
        assert kept == [c] + rest;
        if rest == [] {
          assert Join(kept, ContextSeparator) == c;
        } else {
          BudgetedLength(items[1..], total + |c| + 10, maxLength);
          JoinCons(c, rest, ContextSeparator);
          assert |ContextSeparator| == 7;
        }
      }
    }
  }

  /** What keeping every item costs: each item's length plus 10, except that the last
      item's separator charge is never compared with the budget. */
  function Charge(items: seq<string>): int {
    if items == [] then 0 else |items[0]| + 10 + Charge(items[1..])
  }

  /** The charge of one more item. */
  lemma ChargeSnoc(items: seq<string>, i: nat)
    requires i < |items|
    ensures Charge(items[..i + 1]) == |items[0]| + 10 + Charge(items[1..][..i])
  {
    assert items[..i + 1][1..] == items[1..][..i];
  }

  /** How many leading items fit whole when `total` of the budget is spent. */
  function FitCount(items: seq<string>, total: int, maxLength: int): (j: nat)
    ensures j <= |items|
    decreases |items|
  {
    if items == [] || total + |items[0]| > maxLength then 0
    else FitCount(items[1..], total + |items[0]| + 10, maxLength) + 1
  }

  /** What remains of the budget once the leading items that fit whole are charged. */
  function Left(items: seq<string>, total: int, maxLength: int): int
    decreases |items|
  {
    if items == [] || total + |items[0]| > maxLength then maxLength - total
    else Left(items[1..], total + |items[0]| + 10, maxLength)
  }

  /** The items counted are those that fit after the charges of the items before them,
      and the next one, if any, does not. */
  lemma {:induction false} FitCountSpec(items: seq<string>, total: int, maxLength: int)
    ensures var j := FitCount(items, total, maxLength);
            && (forall i | 0 <= i < j :: total + Charge(items[..i]) + |items[i]| <= maxLength)
            && (j < |items| ==> total + Charge(items[..j]) + |items[j]| > maxLength)
            && Left(items, total, maxLength) == maxLength - total - Charge(items[..j])
    decreases |items|
  {
    assert items[..0] == [];
    if items != [] && total + |items[0]| <= maxLength {
      var rest := items[1..];
      var total' := total + |items[0]| + 10;
      var j' := FitCount(rest, total', maxLength);
      FitCountSpec(rest, total', maxLength);
      forall i | 0 <= i < j' + 1
        ensures total + Charge(items[..i]) + |items[i]| <= maxLength
      {
        if i > 0 {
          ChargeSnoc(items, i - 1);
          assert items[i] == rest[i - 1];
        }
      }
      ChargeSnoc(items, j');
      if j' < |rest| {
        assert items[j' + 1] == rest[j'];
      }
    }
  }

  /** The part after the whole ones: the first item that does not fit, cut to what
      remains of the budget and marked with "...", when more than 100 characters remain. */
  function CutPart(items: seq<string>, total: int, maxLength: int): seq<string> {
    var j := FitCount(items, total, maxLength);
    var remaining := Left(items, total, maxLength);
    if j < |items| && remaining > 100 then [Take(items[j], remaining) + "..."] else []
  }

  /** The loop keeps exactly the items that fit whole, in order, followed by the cut part
      of the first item that does not fit, if any. */
  lemma {:induction false} BudgetedCut(items: seq<string>, total: int, maxLength: int)
    ensures Budgeted(items, total, maxLength) == items[..FitCount(items, total, maxLength)] + CutPart(items, total, maxLength)
    decreases |items|
  {
    if items != [] {
      var c := items[0];
      if total + |c| <= maxLength {
        var rest := items[1..];
        var total' := total + |c| + 10;
        var j' := FitCount(rest, total', maxLength);
        BudgetedCut(rest, total', maxLength);
        assert items[..j' + 1] == [c] + rest[..j'];
        if j' < |rest| {
          assert items[j' + 1] == rest[j'];
        }
        assert CutPart(items, total, maxLength) == CutPart(rest, total', maxLength);
      } else {
        assert items[..0] == [];
      }
    }
  }

  /** The loop as charged: every part kept whole fits after the charges of those before
      it, the first that does not fit is cut to the remaining budget exactly when more than
      100 characters remain, and nothing follows it. */
  lemma BudgetedSpec(items: seq<string>, total: int, maxLength: int)
    ensures var kept := Budgeted(items, total, maxLength);
            var j := FitCount(items, total, maxLength);
            var remaining := maxLength - total - Charge(items[..j]);
            && j <= |kept| <= j + 1
            && kept[..j] == items[..j]
            && (forall i | 0 <= i < j :: total + Charge(items[..i]) + |items[i]| <= maxLength)
            && (j < |items| ==> total + Charge(items[..j]) + |items[j]| > maxLength)
            && (|kept| == j + 1 <==> j < |items| && remaining > 100)
            && (|kept| == j + 1 ==> kept[j] == Take(items[j], remaining) + "...")
  {
    FitCountSpec(items, total, maxLength);
    BudgetedCut(items, total, maxLength);
    var j := FitCount(items, total, maxLength);
    var kept := Budgeted(items, total, maxLength);
    assert kept[..j] == items[..j];
  }

  /** When the whole charge fits the budget nothing is cut or dropped. */
  lemma {:induction false} AllFit(items: seq<string>, total: int, maxLength: int)
    requires items != [] ==> total + Charge(items) - 10 <= maxLength
    ensures Budgeted(items, total, maxLength) == items
    decreases |items|
  {
    if items != [] {
      var c := items[0];
      var rest := items[1..];
      ChargeNonNegative(rest);
      assert Charge(items) == |c| + 10 + Charge(rest);
      assert total + |c| <= maxLength;
      var kept := Budgeted(rest, total + |c| + 10, maxLength);
      assert Budgeted(items, total, maxLength) == [c] + kept;
      if rest != [] {
        AllFit(rest, total + |c| + 10, maxLength);
      }
      assert kept == rest;
      assert items == [c] + rest;
    }
  }

  lemma {:induction false} ChargeNonNegative(items: seq<string>)
    ensures Charge(items) >= 0
    ensures items != [] ==> Charge(items) >= 10
    decreases |items|
  {
    if items != [] {
      ChargeNonNegative(items[1..]);
    }
  }

  /** Results whose parts fit the budget all appear, in order, joined by the separator. */
  lemma FormatContextAllFit(results: seq<SearchResult>, maxLength: int)
    requires results != [] && Charge(Parts(results)) - 10 <= maxLength
    ensures FormatContext(results, maxLength) == Join(Parts(results), ContextSeparator)
  {
    AllFit(Parts(results), 0, maxLength);
  }
}
