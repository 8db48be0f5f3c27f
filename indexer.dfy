/**
 * `HeritageIndexer`: a TF-IDF index over site documents.  The vectorizer and the cosine
 * kernel are abstract (a fit that may reject its corpus, a similarity function), so the
 * model is about the index's life cycle, the alignment of its fields, and the ranking.
 */
module Indexer {
  import opened Wrappers
  import opened Text
  import opened Json

  /** A `TfidfVectorizer`: `corpus` holds the texts it was fitted on, None while unfitted. */
  datatype Vectorizer = Vectorizer(corpus: Option<seq<string>>)

  /** The TF-IDF matrix, one row per indexed text. */
  datatype Matrix = Matrix(rows: seq<string>)

  /** `vectorizer.fit_transform(texts)` succeeds (sklearn rejects e.g. an empty vocabulary). */
  type FitAccepts = seq<string> -> bool

  /** The cosine similarity of a query with one row, under a vectorizer fitted on a corpus. */
  type Similarity = (seq<string>, string, string) -> real

  datatype FitError =
    | DocNotADict    // AttributeError from `d.get` on a document that is not a dict
    | FieldNotText   // TypeError from `name + " \n "` on a truthy non-string field
    | FitRejected    // ValueError from `fit_transform`

  datatype SearchError =
    | NotFitted          // the RuntimeError "Index has not been fitted yet"
    | TransformUnfitted  // NotFittedError from `transform` on a vectorizer whose fit failed
    | Misaligned         // IndexError/AttributeError from a position without its id or document

  datatype LoadError = FileNotFound | Unreadable

  datatype BuildError = LoadFailed(cause: LoadError) | FitFailed(reason: FitError)

  /** One search result: `{"id", "name", "description", "score"}`. */
  datatype Hit = Hit(id: string, name: Json, description: Json, score: real)

  /** The four fields `save` writes and `load` reads back. */
  datatype IndexState = IndexState(vectorizer: Option<Vectorizer>, docIds: seq<string>,
                                   docs: seq<Json>, tfidfMatrix: Option<Matrix>)

  /** A file at an index path: the state `save` wrote, or one `joblib.load` cannot read. */
  datatype Blob = Saved(state: IndexState) | Corrupt

  /** The files the index is saved to. */
  class FileStore {
    var files: map<string, Blob>

    constructor(files: map<string, Blob>)
      ensures this.files == files
    {
      this.files := files;
    }
  }

  predicate AllDicts(docs: seq<Json>) {
    forall i :: 0 <= i < |docs| ==> docs[i].JObj?
  }

  /** `str(d.get("id", i))` */
  function DocId(d: Json, i: nat): (r: string)
    requires d.JObj?
    ensures Lookup(d.entries, "id").None? ==> r == NatToString(i)
    ensures Lookup(d.entries, "id").Some? ==> r == PyStr(Lookup(d.entries, "id").value)
  {
    match Lookup(d.entries, "id")
    case Some(v) => PyStr(v)
    case None => NatToString(i)
  }

  /** `[str(d.get("id", i)) for i, d in enumerate(docs)]` */
  function DocIds(docs: seq<Json>): (r: seq<string>)
    requires AllDicts(docs)
    ensures |r| == |docs|
    ensures forall i :: 0 <= i < |docs| ==> r[i] == DocId(docs[i], i)
  {
    seq(|docs|, i requires 0 <= i < |docs| => DocId(docs[i], i))
  }

  /** Documents without an "id" are told apart by their positions. */
  lemma PositionalIdsDistinct(docs: seq<Json>, i: nat, j: nat)
    requires AllDicts(docs) && i < |docs| && j < |docs| && i != j
    requires Lookup(docs[i].entries, "id").None? && Lookup(docs[j].entries, "id").None?
    ensures DocIds(docs)[i] != DocIds(docs)[j]
  {
    if NatToString(i) == NatToString(j) {
      NatToStringInjective(i, j);
    }
  }

  /** `(v or "")` ahead of a string concatenation: None stands for the TypeError of a non-string. */
  function FieldText(v: Json): (r: Option<string>)
    ensures !Truthy(v) ==> r == Some("")
    ensures Truthy(v) ==> (r.Some? <==> v.JStr?)
    ensures Truthy(v) && v.JStr? ==> r == Some(v.s)
  {
    if !Truthy(v) then Some("") else if v.JStr? then Some(v.s) else None
  }

  /** `(d.get("name") or "") + " \n " + (d.get("description") or "")` */
  function DocText(d: Json): (r: Option<string>)
    requires d.JObj?
    ensures r.Some? <==> FieldText(DictGet(d.entries, "name", JNull)).Some?
                         && FieldText(DictGet(d.entries, "description", JNull)).Some?
    ensures r.Some? ==> r.value == FieldText(DictGet(d.entries, "name", JNull)).value + " \n "
                                   + FieldText(DictGet(d.entries, "description", JNull)).value
  {
    match (FieldText(DictGet(d.entries, "name", JNull)), FieldText(DictGet(d.entries, "description", JNull)))
    case (Some(name), Some(description)) => Some(name + " \n " + description)
    case _ => None
  }

  /** The texts `fit` indexes, one per document, or None when one of them raises. */
  function Texts(docs: seq<Json>): (r: Option<seq<string>>)
    requires AllDicts(docs)
    ensures r.Some? <==> forall i :: 0 <= i < |docs| ==> DocText(docs[i]).Some?
    ensures r.Some? ==> |r.value| == |docs| && forall i :: 0 <= i < |docs| ==> r.value[i] == DocText(docs[i]).value
  {
    if docs == [] then Some([])
    else match (DocText(docs[0]), Texts(docs[1..]))
      case (Some(t), Some(ts)) =>
        assert forall i :: 1 <= i < |docs| ==> docs[1..][i - 1] == docs[i];
        Some([t] + ts)
      case (None, _) => None
      case (_, None) =>
        assert forall i :: 1 <= i < |docs| ==> docs[1..][i - 1] == docs[i];
        None
  }

  /** `len(a[:k])` for a list of length `n` and a Python slice bound `k`. */
  function SliceLen(n: nat, k: int): (r: nat)
    ensures r <= n
    ensures k >= 0 ==> r == if k < n then k else n
    ensures k < 0 ==> r == if n + k < 0 then 0 else n + k
  {
    if k >= 0 then (if k < n then k else n) else if n + k < 0 then 0 else n + k
  }

  /** The similarities of the query with every row, in row order. */
  function Scores(corpus: seq<string>, rows: seq<string>, query: string, sim: Similarity): (r: seq<real>)
    ensures |r| == |rows| && forall i :: 0 <= i < |rows| ==> r[i] == sim(corpus, rows[i], query)
  {
    seq(|rows|, i requires 0 <= i < |rows| => sim(corpus, rows[i], query))
  }

  /**
   * `positions` is a ranking of `scores`: distinct positions, in non-increasing score order,
   * none scoring below a position left out.  Which of two equal scores comes first is open.
   */
  predicate Ranked(scores: seq<real>, positions: seq<nat>) {
    && (forall i :: 0 <= i < |positions| ==> positions[i] < |scores|)
    && (forall i, j :: 0 <= i < j < |positions| ==> positions[i] != positions[j])
    && (forall i, j :: 0 <= i < j < |positions| ==> scores[positions[i]] >= scores[positions[j]])
    && (forall p, i :: 0 <= p < |scores| && p !in positions && 0 <= i < |positions| ==>
          scores[p] <= scores[positions[i]])
  }

  /** A prefix of a ranking of every position is again a ranking. */
  lemma RankedPrefix(scores: seq<real>, order: seq<nat>, k: nat)
    requires Ranked(scores, order) && (forall p :: 0 <= p < |scores| ==> p in order) && k <= |order|
    ensures Ranked(scores, order[..k])
  {
    forall p, i | 0 <= p < |scores| && p !in order[..k] && 0 <= i < k
      ensures scores[p] <= scores[order[..k][i]]
    {
      assert p in order;
      var j :| 0 <= j < |order| && order[j] == p;
      assert j >= k;
    }
  }

  /** The first position of a ranking scores at least as high as every document. */
  lemma FirstIsMaximal(scores: seq<real>, positions: seq<nat>)
    requires Ranked(scores, positions) && |positions| > 0
    ensures forall q :: 0 <= q < |scores| ==> scores[q] <= scores[positions[0]]
  {
    forall q | 0 <= q < |scores|
      ensures scores[q] <= scores[positions[0]]
    {
      if q in positions {
        var i :| 0 <= i < |positions| && positions[i] == q;
        if i > 0 {
          assert scores[positions[0]] >= scores[positions[i]];
        }
      }
    }
  }

  /** A document whose score is strictly the highest comes first. */
  lemma StrictMaxRanksFirst(scores: seq<real>, positions: seq<nat>, p: nat)
    requires Ranked(scores, positions) && |positions| > 0 && p < |scores|
    requires forall q :: 0 <= q < |scores| && q != p ==> scores[q] < scores[p]
    ensures positions[0] == p
  {
    FirstIsMaximal(scores, positions);
    assert scores[p] <= scores[positions[0]];
  }

  lemma MaxExists(rest: set<nat>, scores: seq<real>)
    requires rest != {} && forall p :: p in rest ==> p < |scores|
    ensures exists best :: best in rest && forall p :: p in rest ==> scores[p] <= scores[best]
  {
    var x :| x in rest;
    if rest != {x} {
      MaxExists(rest - {x}, scores);
      var b :| b in rest - {x} && forall p :: p in rest - {x} ==> scores[p] <= scores[b];
      if scores[x] > scores[b] {
        assert forall p :: p in rest ==> scores[p] <= scores[x];
      } else {
        assert forall p :: p in rest ==> scores[p] <= scores[b];
      }
    } else {
      assert forall p :: p in rest ==> p == x;
    }
  }

  /** Appending a best remaining position to a ranking of the other positions keeps it a ranking. */
  lemma RankedAppend(scores: seq<real>, order: seq<nat>, rest: set<nat>, best: nat)
    requires Ranked(scores, order)
    requires forall p :: p in rest ==> p < |scores|
    requires forall p :: 0 <= p < |scores| ==> (p in rest <==> p !in order)
    requires forall p, i :: p in rest && 0 <= i < |order| ==> scores[p] <= scores[order[i]]
    requires best in rest && forall p :: p in rest ==> scores[p] <= scores[best]
    ensures Ranked(scores, order + [best])
    ensures forall p, i :: p in rest - {best} && 0 <= i < |order| + 1 ==> scores[p] <= scores[(order + [best])[i]]
  {
    var n := |order|;
    var grown := order + [best];
    assert forall i :: 0 <= i < n ==> grown[i] == order[i];
    assert grown[n] == best && best !in order;
    forall i, j | 0 <= i < j < |grown|
      ensures grown[i] != grown[j] && scores[grown[i]] >= scores[grown[j]]
    {
      if j == n {
        assert grown[i] == order[i] && order[i] in order;
      }
    }
    forall p, i | 0 <= p < |scores| && p !in grown && 0 <= i < |grown|
      ensures scores[p] <= scores[grown[i]]
    {
      assert p !in order && p != best;
      assert p in rest;
    }
  }

  /** The positions `0 .. n-1`. */
  function Range(n: nat): (r: set<nat>)
    ensures |r| == n && forall p: nat :: p in r <==> p < n
  {
    if n == 0 then {}
    else
      var below := Range(n - 1);
      assert n - 1 !in below;
      below + {n - 1}
  }

  /**
   * `scores.argsort()[::-1]`: every position, in non-increasing score order.  Among equal
   * scores any order may come out, as numpy's unstable sort leaves it open.
   */
  method RankDescending(scores: seq<real>) returns (order: seq<nat>)
    ensures |order| == |scores| && Ranked(scores, order)
    ensures forall p :: 0 <= p < |scores| ==> p in order
  {
    var rest: set<nat> := Range(|scores|);
    order := [];
    while rest != {}
      invariant forall p :: p in rest ==> p < |scores|
      invariant forall p :: 0 <= p < |scores| ==> (p in rest <==> p !in order)
      invariant |order| + |rest| == |scores|
      invariant Ranked(scores, order)
      invariant forall p, i :: p in rest && 0 <= i < |order| ==> scores[p] <= scores[order[i]]
      decreases |rest|
    {
      MaxExists(rest, scores);
      var best :| best in rest && forall p :: p in rest ==> scores[p] <= scores[best];
      RankedAppend(scores, order, rest, best);
      order := order + [best];
      rest := rest - {best};
    }
  }

  /**
   * The four fields `fit(newDocs)` leaves behind, started from `before`, and its outcome.
   * The fields are replaced one after another, so an exception part-way leaves the new
   * documents beside the old ids, or a fresh unfitted vectorizer beside the old matrix.
   */
  function AfterFit(before: IndexState, newDocs: seq<Json>, accepts: FitAccepts): (r: (IndexState, Outcome<FitError>))
    ensures r.0.docs == newDocs
    ensures !AllDicts(newDocs) ==> r.1 == Fail(DocNotADict) && r.0 == before.(docs := newDocs)
    ensures AllDicts(newDocs) ==> r.0.docIds == DocIds(newDocs)
    ensures AllDicts(newDocs) && Texts(newDocs).None? ==>
              r.1 == Fail(FieldNotText) && r.0.vectorizer == before.vectorizer && r.0.tfidfMatrix == before.tfidfMatrix
    ensures AllDicts(newDocs) && Texts(newDocs).Some? && !accepts(Texts(newDocs).value) ==>
              r.1 == Fail(FitRejected) && r.0.vectorizer == Some(Vectorizer(None)) && r.0.tfidfMatrix == before.tfidfMatrix
    ensures AllDicts(newDocs) && Texts(newDocs).Some? && accepts(Texts(newDocs).value) ==>
              r.1 == Pass && r.0.vectorizer == Some(Vectorizer(Texts(newDocs)))
              && r.0.tfidfMatrix == Some(Matrix(Texts(newDocs).value))
    ensures r.1.Pass? ==> && AllDicts(newDocs) && |r.0.docIds| == |newDocs|
                          && r.0.tfidfMatrix.Some? && |r.0.tfidfMatrix.value.rows| == |newDocs|
  {
    if !AllDicts(newDocs) then (before.(docs := newDocs), Fail(DocNotADict))
    else
      var ids := DocIds(newDocs);
      match Texts(newDocs)
      case None => (before.(docs := newDocs, docIds := ids), Fail(FieldNotText))
      case Some(texts) =>
        if accepts(texts) then (IndexState(Some(Vectorizer(Some(texts))), ids, newDocs, Some(Matrix(texts))), Pass)
        else (IndexState(Some(Vectorizer(None)), ids, newDocs, before.tfidfMatrix), Fail(FitRejected))
  }

  class HeritageIndexer {
    var vectorizer: Option<Vectorizer>
    var docIds: seq<string>
    var docs: seq<Json>
    var tfidfMatrix: Option<Matrix>

    /** A new index is unfitted and empty. */
    constructor()
      ensures vectorizer.None? && docIds == [] && docs == [] && tfidfMatrix.None?
    {
      vectorizer := None;
      docIds := [];
      docs := [];
      tfidfMatrix := None;
    }

    function State(): IndexState
      reads this
    {
      IndexState(vectorizer, docIds, docs, tfidfMatrix)
    }

    /** `search` can run: a fitted vectorizer and a matrix. */
    predicate Fitted()
      reads this
    {
      vectorizer.Some? && vectorizer.value.corpus.Some? && tfidfMatrix.Some?
    }

    /** Every row of the matrix has its id and its document at the same position. */
    predicate Aligned()
      reads this
    {
      && |docIds| == |docs| && AllDicts(docs)
      && (tfidfMatrix.Some? ==> |tfidfMatrix.value.rows| == |docs|)
    }

    /** Position `p` has an id and a dict document, so a result can be built for it. */
    predicate Resolves(p: nat)
      reads this
    {
      p < |docIds| && p < |docs| && docs[p].JObj?
    }

    /** The result record for position `p`: all four fields from that one position. */
    function HitAt(p: nat, scores: seq<real>): (h: Hit)
      reads this
      requires Resolves(p) && p < |scores|
      ensures h.id == docIds[p] && h.score == scores[p]
      ensures h.name == DictGet(docs[p].entries, "name", JNull)
      ensures h.description == DictGet(docs[p].entries, "description", JNull)
    {
      Hit(docIds[p], DictGet(docs[p].entries, "name", JNull), DictGet(docs[p].entries, "description", JNull), scores[p])
    }

    /** `fit`: the fields step by step, ending as `AfterFit` says. */
    method Fit(newDocs: seq<Json>, accepts: FitAccepts) returns (r: Outcome<FitError>)
      modifies this
      ensures (State(), r) == AfterFit(old(State()), newDocs, accepts)
      ensures r.Pass? ==> Fitted() && Aligned()
    {
      docs := newDocs;
      if !AllDicts(newDocs) {
        return Fail(DocNotADict);
      }
      docIds := DocIds(newDocs);
      var texts := Texts(newDocs);
      if texts.None? {
        return Fail(FieldNotText);
      }
      vectorizer := Some(Vectorizer(None));
      if !accepts(texts.value) {
        return Fail(FitRejected);
      }
      vectorizer := Some(Vectorizer(texts));
      tfidfMatrix := Some(Matrix(texts.value));
      return Pass;
    }

    /**
     * `search`: the documents ranked by similarity to the query, cut to `top_k` with Python
     * slice semantics, each result built from one position.
     */
    method Search(query: string, topK: int, sim: Similarity)
      returns (r: Result<seq<Hit>, SearchError>, ghost positions: seq<nat>)
      ensures vectorizer.None? || tfidfMatrix.None? ==> r == Failure(NotFitted)
      ensures vectorizer.Some? && vectorizer.value.corpus.None? && tfidfMatrix.Some? ==> r == Failure(TransformUnfitted)
      ensures Fitted() ==>
        var scores := Scores(vectorizer.value.corpus.value, tfidfMatrix.value.rows, query, sim);
        && |positions| == SliceLen(|scores|, topK) && Ranked(scores, positions)
        && (r.Success? <==> forall i :: 0 <= i < |positions| ==> Resolves(positions[i]))
        && (r.Success? ==> |r.value| == |positions|
                           && forall i :: 0 <= i < |positions| ==> r.value[i] == HitAt(positions[i], scores))
      ensures Fitted() && Aligned() ==> r.Success?
    {
      positions := [];
      if vectorizer.None? || tfidfMatrix.None? {
        return Failure(NotFitted), positions;
      }
      if vectorizer.value.corpus.None? {
        return Failure(TransformUnfitted), positions;
      }
      var scores := Scores(vectorizer.value.corpus.value, tfidfMatrix.value.rows, query, sim);
      var order := RankDescending(scores);
      RankedPrefix(scores, order, SliceLen(|order|, topK));
      var top := order[..SliceLen(|order|, topK)];
      positions := top;
      var results: seq<Hit> := [];
      var i := 0;
      while i < |top|
        invariant 0 <= i <= |top| && |results| == i
        invariant forall j :: 0 <= j < i ==> Resolves(top[j]) && results[j] == HitAt(top[j], scores)
      {
        var idx := top[i];
        if idx >= |docIds| || idx >= |docs| || !docs[idx].JObj? {
          return Failure(Misaligned), positions;
        }
        results := results + [HitAt(idx, scores)];
        i := i + 1;
      }
      return Success(results), positions;
    }

    /** `save`: the four fields are written to the path. */
    method Save(store: FileStore, path: string)
      modifies store
      ensures store.files == old(store.files)[path := Saved(State())]
    {
      store.files := store.files[path := Saved(State())];
    }

    /** `load`: all four fields are replaced by the saved state, or nothing changes. */
    method Load(store: FileStore, path: string) returns (r: Outcome<LoadError>)
      modifies this
      ensures path !in store.files ==> r == Fail(FileNotFound) && State() == old(State())
      ensures path in store.files && store.files[path].Corrupt? ==> r == Fail(Unreadable) && State() == old(State())
      ensures path in store.files && store.files[path].Saved? ==> r == Pass && State() == store.files[path].state
    {
      if path !in store.files {
        return Fail(FileNotFound);
      }
      match store.files[path]
      case Corrupt =>
        return Fail(Unreadable);
      case Saved(state) =>
        vectorizer := state.vectorizer;
        docIds := state.docIds;
        docs := state.docs;
        tfidfMatrix := state.tfidfMatrix;
        return Pass;
    }

    /**
     * `load_or_build`: load the index; when that fails, re-raise without documents, or fit
     * them and save the result.
     */
    method LoadOrBuild(store: FileStore, path: string, newDocs: Option<seq<Json>>, accepts: FitAccepts)
      returns (r: Outcome<BuildError>)
      modifies this, store
      ensures path in old(store.files) && old(store.files)[path].Saved? ==>
                r == Pass && State() == old(store.files)[path].state && store.files == old(store.files)
      ensures !(path in old(store.files) && old(store.files)[path].Saved?) && newDocs.None? ==>
                r.Fail? && r.error.LoadFailed? && State() == old(State()) && store.files == old(store.files)
      ensures !(path in old(store.files) && old(store.files)[path].Saved?) && newDocs.Some? ==>
                var fit := AfterFit(old(State()), newDocs.value, accepts);
                && State() == fit.0
                && (fit.1.Pass? ==> r == Pass && Fitted() && Aligned() && store.files == old(store.files)[path := Saved(fit.0)])
                && (fit.1.Fail? ==> r == Fail(FitFailed(fit.1.error)) && store.files == old(store.files))
    {
      var loaded := Load(store, path);
      if loaded.Pass? {
        return Pass;
      }
      if newDocs.None? {
        return Fail(LoadFailed(loaded.error));
      }
      var fitted := Fit(newDocs.value, accepts);
      if fitted.Fail? {
        return Fail(FitFailed(fitted.error));
      }
      Save(store, path);
      return Pass;
    }
  }

  /** Searching a new index raises "not fitted". */
  method SearchBeforeFit(query: string, topK: int, sim: Similarity) returns (r: Result<seq<Hit>, SearchError>)
    ensures r == Failure(NotFitted)
  {
    var index := new HeritageIndexer();
    ghost var positions;
    r, positions := index.Search(query, topK, sim);
  }

  /** Searching right after a successful fit yields `min(top_k, n)` hits for `top_k >= 0`. */
  method SearchAfterFit(newDocs: seq<Json>, accepts: FitAccepts, query: string, topK: nat, sim: Similarity)
    returns (r: Result<seq<Hit>, SearchError>)
    requires AllDicts(newDocs) && Texts(newDocs).Some? && accepts(Texts(newDocs).value)
    ensures r.Success? && |r.value| == if topK < |newDocs| then topK else |newDocs|
  {
    var index := new HeritageIndexer();
    var fitted := index.Fit(newDocs, accepts);
    ghost var positions;
    r, positions := index.Search(query, topK, sim);
  }

  const TempleText: string := "Ancient Temple" + " \n " + "stone temple ruins and columns"
  const MuseumText: string := "Modern Museum" + " \n " + "contemporary art and exhibitions"
  const ParkText: string := "Coastal Park" + " \n " + "sea cliffs and coastal biodiversity"

  /** A document with an id and non-empty string name and description. */
  function SampleDoc(id: string, name: string, description: string): (d: Json)
    requires name != [] && description != []
    ensures d.JObj? && DocText(d) == Some(name + " \n " + description) && DocId(d, 0) == id
  {
    var e := [("id", JStr(id)), ("name", JStr(name)), ("description", JStr(description))];
    assert e[1..][1..] == [("description", JStr(description))];
    assert Lookup(e[1..][1..], "description") == Some(JStr(description));
    assert Lookup(e, "description") == Some(JStr(description));
    assert Lookup(e, "name") == Some(JStr(name));
    assert FieldText(DictGet(e, "name", JNull)) == Some(name);
    assert FieldText(DictGet(e, "description", JNull)) == Some(description);
    JObj(e)
  }

  /** The texts of documents whose texts are known one by one. */
  lemma DescribedTexts(docs: seq<Json>, texts: seq<string>)
    requires AllDicts(docs) && |docs| == |texts|
    requires forall i :: 0 <= i < |docs| ==> DocText(docs[i]) == Some(texts[i])
    ensures Texts(docs) == Some(texts)
  {
    var r := Texts(docs);
    assert r.Some?;
    assert |r.value| == |texts|;
    assert forall i :: 0 <= i < |texts| ==> r.value[i] == texts[i];
    assert r.value == texts;
  }

  /** The three documents of the basic search test. */
  function SampleDocs(): (docs: seq<Json>)
    ensures AllDicts(docs) && |docs| == 3
    ensures Texts(docs) == Some([TempleText, MuseumText, ParkText])
  {
    var docs := [SampleDoc("a", "Ancient Temple", "stone temple ruins and columns"),
                 SampleDoc("b", "Modern Museum", "contemporary art and exhibitions"),
                 SampleDoc("c", "Coastal Park", "sea cliffs and coastal biodiversity")];
    DescribedTexts(docs, [TempleText, MuseumText, ParkText]);
    docs
  }

  /**
   * The basic search test: when the similarity ranks the temple document strictly first
   * and above zero for "temple ruins", the first of two hits is "a" with a positive score.
   */
  method BasicSearch(accepts: FitAccepts, sim: Similarity) returns (r: Result<seq<Hit>, SearchError>)
    requires accepts([TempleText, MuseumText, ParkText])
    requires var corpus := [TempleText, MuseumText, ParkText];
      && sim(corpus, TempleText, "temple ruins") > 0.0
      && sim(corpus, MuseumText, "temple ruins") < sim(corpus, TempleText, "temple ruins")
      && sim(corpus, ParkText, "temple ruins") < sim(corpus, TempleText, "temple ruins")
    ensures r.Success? && |r.value| == 2 && r.value[0].id == "a" && r.value[0].score > 0.0
  {
    var corpus := [TempleText, MuseumText, ParkText];
    var index := new HeritageIndexer();
    var docs := SampleDocs();
    var fitted := index.Fit(docs, accepts);
    assert index.vectorizer == Some(Vectorizer(Some(corpus))) && index.tfidfMatrix == Some(Matrix(corpus));
    assert index.docIds[0] == DocId(docs[0], 0) == "a";
    ghost var positions;
    r, positions := index.Search("temple ruins", 2, sim);
    ghost var scores := Scores(corpus, corpus, "temple ruins", sim);
    assert index.Fitted() && index.Aligned();
    assert index.vectorizer.value.corpus.value == corpus && index.tfidfMatrix.value.rows == corpus;
    assert Ranked(scores, positions) && |positions| == 2;
    assert |scores| == 3 && scores[0] > 0.0 && scores[1] < scores[0] && scores[2] < scores[0];
    assert forall q :: 0 <= q < |scores| && q != 0 ==> scores[q] < scores[0];
    StrictMaxRanksFirst(scores, positions, 0);
    assert r.value[0] == index.HitAt(0, scores);
  }
}
