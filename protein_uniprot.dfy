/**
 * `_parse_uniprot_data` of BioTools/protein_annotation.py: the defaulting extractor that reads a
 * UniProt entry (decoded JSON) into its gene, taxonomy, first FUNCTION comment, GO terms and
 * sequence. Any exception it raises is caught by its caller, so a raise is `None` here.
 */
module UniprotEntry {
  import opened Wrappers
  import opened PyJson

  /** The "N/A" default of the four text fields. */
  const NA: Json := JStr("N/A")
  const NoFields: Json := JObj(map[])

  /** The five parsed fields, in the order of the result dict. */
  datatype Fields = Fields(gene: Json, taxid: Json, annotation: Json, goTerms: map<Json, Json>, sequence: Json)

  // ---------------------------------------------------------------- gene and taxonomy

  /** `g[0]` followed by `.get`: only a non-empty list gives an element; every other value raises,
    * at the index (empty list, dict, number, null) or at the following `.get` (a string's character). */
  function First(g: Json): Option<Json>
  {
    if g.JArr? && g.items != [] then Some(g.items[0]) else None
  }

  /** `data.get("gene", [{}])[0].get("name", {}).get("value", "N/A")`. */
  function GeneOf(data: Json): Option<Json>
  {
    match Get(data, "gene", JArr([NoFields]))
    case None => None
    case Some(g) =>
      match First(g)
      case None => None
      case Some(g0) =>
        match Get(g0, "name", NoFields)
        case None => None
        case Some(n) => Get(n, "value", NA)
  }

  /** `data.get("organism", {}).get("taxonomy", "N/A")`. */
  function TaxidOf(data: Json): Option<Json>
  {
    match Get(data, "organism", NoFields)
    case None => None
    case Some(o) => Get(o, "taxonomy", NA)
  }

  // ---------------------------------------------------------------- the FUNCTION comment

  /** What one comment does to the loop: gives the annotation and breaks, lets the loop go on, or raises. */
  datatype Step = Found(value: Json) | Next | Raises

  /** One iteration of the comment loop. Inside the `try`, `texts[0]["value"]` raising KeyError (a
    * dict-valued `text`, an element without `value`) moves on; the TypeError of indexing a string,
    * a number or a non-dict element is not caught. */
  function CommentStep(c: Json): Step
  {
    if !c.JObj? then Raises
    else if Get(c, "type", JNull) != Some(JStr("FUNCTION")) then Next
    else
      var texts := Get(c, "text", JArr([])).value;
      if !Truthy(texts) then Next
      else
        match texts
        case JObj(_) => Next
        case JArr(xs) =>
          (match xs[0]
           case JObj(m) => if "value" in m then Found(m["value"]) else Next
           case _ => Raises)
        case _ => Raises
  }

  /** The outcome of the comment loop: the annotation it breaks with, none, or a raise. */
  datatype Scan = Annotated(value: Json) | NotAnnotated | Raised

  /** The loop over the comments, stopping at the first that gives an annotation or raises. */
  function ScanComments(cs: seq<Json>): Scan
    decreases |cs|
  {
    if cs == [] then NotAnnotated
    else
      match CommentStep(cs[0])
      case Found(v) => Annotated(v)
      case Next => ScanComments(cs[1..])
      case Raises => Raised
  }

  function AnnotationOf(data: Json): Option<Json>
  {
    match Get(data, "comments", JArr([]))
    case None => None
    case Some(cj) =>
      match DictLoop(cj)
      case None => None
      case Some(cs) =>
        match ScanComments(cs)
        case Annotated(v) => Some(v)
        case NotAnnotated => Some(NA)
        case Raised => None
  }

  /** The loop stops at the first comment that does not let it go on: its annotation or its raise. */
  lemma {:induction false} ScanCommentsFirst(cs: seq<Json>)
    ensures ScanComments(cs) == NotAnnotated <==> forall i :: 0 <= i < |cs| ==> CommentStep(cs[i]) == Next
    ensures ScanComments(cs) != NotAnnotated ==>
      exists i :: 0 <= i < |cs| && (forall j :: 0 <= j < i ==> CommentStep(cs[j]) == Next)
                  && ScanComments(cs) == (if CommentStep(cs[i]).Found? then Annotated(CommentStep(cs[i]).value) else Raised)
                  && CommentStep(cs[i]) != Next
    decreases |cs|
  {
    if cs != [] {
      ScanCommentsFirst(cs[1..]);
      if CommentStep(cs[0]) == Next {
        if ScanComments(cs) != NotAnnotated {
          var i :| 0 <= i < |cs[1..]| && (forall j :: 0 <= j < i ==> CommentStep(cs[1..][j]) == Next)
                   && ScanComments(cs[1..]) == (if CommentStep(cs[1..][i]).Found? then Annotated(CommentStep(cs[1..][i]).value) else Raised)
                   && CommentStep(cs[1..][i]) != Next;
          assert cs[1..][i] == cs[i + 1];
          forall j | 0 <= j < i + 1 ensures CommentStep(cs[j]) == Next {
            if j > 0 { assert cs[1..][j - 1] == cs[j]; }
          }
        }
        forall i | 0 <= i < |cs[1..]| ensures cs[1..][i] == cs[i + 1] {}
      }
    }
  }

  /** A FUNCTION comment whose `text` is a dict, or whose first text has no `value`, is skipped. */
  lemma MalformedFunctionSkipped(rest: map<string, Json>, other: map<string, Json>)
    requires rest != map[] && "value" !in other
    ensures CommentStep(JObj(map["type" := JStr("FUNCTION"), "text" := JObj(rest)])) == Next
    ensures CommentStep(JObj(map["type" := JStr("FUNCTION"), "text" := JArr([JObj(other)])])) == Next
  {
  }

  // ---------------------------------------------------------------- GO terms

  /** `db_reference.get("type") == "GO"`, on a reference already known to be a dict. */
  predicate IsGo(r: Json)
    requires r.JObj?
  {
    Get(r, "type", JNull) == Some(JStr("GO"))
  }

  /** What one reference appends to `go_terms` and `go_descripion`: its id and its term, nothing
    * when it is not a GO reference, or a raise (a reference or `properties` that is not a dict). */
  function GoRef(r: Json): Option<seq<(Json, Json)>>
  {
    if !r.JObj? then None
    else if !IsGo(r) then Some([])
    else
      match Get(Get(r, "properties", NoFields).value, "term", JNull)
      case None => None
      case Some(term) => Some([(Get(r, "id", JNull).value, term)])
  }

  /** The two lists the reference loop builds, as pairs in input order. */
  function GoPairs(refs: seq<Json>): Option<seq<(Json, Json)>>
    decreases |refs|
  {
    if refs == [] then Some([])
    else
      match GoPairs(refs[..|refs| - 1])
      case None => None
      case Some(ps) =>
        match GoRef(refs[|refs| - 1])
        case None => None
        case Some(p) => Some(ps + p)
  }

  /** A dict key must be hashable: lists and dicts are not. */
  predicate Hashable(j: Json) { !j.JArr? && !j.JObj? }

  /** `dict(zip(go_terms, go_descripion))`: a later pair overwrites an earlier one with the same key;
    * an unhashable key raises TypeError. */
  function ZipDict(ps: seq<(Json, Json)>): Option<map<Json, Json>>
    decreases |ps|
  {
    if ps == [] then Some(map[])
    else
      var last := ps[|ps| - 1];
      match ZipDict(ps[..|ps| - 1])
      case None => None
      case Some(m) => if Hashable(last.0) then Some(m[last.0 := last.1]) else None
  }

  function GoTermsOf(data: Json): Option<map<Json, Json>>
  {
    match Get(data, "dbReferences", JArr([]))
    case None => None
    case Some(rj) =>
      match DictLoop(rj)
      case None => None
      case Some(refs) =>
        match GoPairs(refs)
        case None => None
        case Some(ps) => ZipDict(ps)
  }

  /** The pairs are exactly the GO references' ids and terms, in input order. */
  lemma {:induction false} GoPairsSpec(refs: seq<Json>)
    ensures GoPairs(refs).Some? <==> forall i :: 0 <= i < |refs| ==> GoRef(refs[i]).Some?
    ensures GoPairs(refs).Some? ==> forall p :: p in GoPairs(refs).value <==> exists i :: 0 <= i < |refs| && GoRef(refs[i]) == Some([p])
    decreases |refs|
  {
    if refs != [] {
      var init := refs[..|refs| - 1];
      GoPairsSpec(init);
      assert forall i :: 0 <= i < |init| ==> init[i] == refs[i];
      if GoPairs(refs).Some? {
        var last := refs[|refs| - 1];
        forall p ensures p in GoPairs(refs).value <==> exists i :: 0 <= i < |refs| && GoRef(refs[i]) == Some([p]) {
          if exists i :: 0 <= i < |refs| && GoRef(refs[i]) == Some([p]) {
            var i :| 0 <= i < |refs| && GoRef(refs[i]) == Some([p]);
            if i < |init| { assert GoRef(init[i]) == Some([p]); }
          }
          if p in GoPairs(init).value {
            var i :| 0 <= i < |init| && GoRef(init[i]) == Some([p]);
            assert GoRef(refs[i]) == Some([p]);
          }
        }
      }
    }
  }

  /** The positions of the references of type GO, in increasing order. */
  function GoIndices(refs: seq<Json>): seq<nat>
    decreases |refs|
  {
    if refs == [] then []
    else
      var last := refs[|refs| - 1];
      GoIndices(refs[..|refs| - 1]) + (if last.JObj? && IsGo(last) then [|refs| - 1] else [])
  }

  /** The `j`-th pair is the id and term of the `j`-th reference of type GO, and every such
    * reference has its pair. */
  lemma GoPairsOrder(refs: seq<Json>)
    requires GoPairs(refs).Some?
    ensures var ps, idx := GoPairs(refs).value, GoIndices(refs);
      && |idx| == |ps|
      && (forall j :: 0 <= j < |idx| ==>
            && idx[j] < |refs| && refs[idx[j]].JObj? && IsGo(refs[idx[j]])
            && ps[j].0 == Get(refs[idx[j]], "id", JNull).value
            && Get(Get(refs[idx[j]], "properties", NoFields).value, "term", JNull) == Some(ps[j].1))
      && (forall j, j' :: 0 <= j < j' < |idx| ==> idx[j] < idx[j'])
      && (forall i :: 0 <= i < |refs| && refs[i].JObj? && IsGo(refs[i]) ==> i in idx)
  {
    GoIndicesSpec(refs);
    GoPairsLength(refs);
    forall j | 0 <= j < |GoIndices(refs)|
      ensures GoPairs(refs).value[j].0 == Get(refs[GoIndices(refs)[j]], "id", JNull).value
      ensures Get(Get(refs[GoIndices(refs)[j]], "properties", NoFields).value, "term", JNull) == Some(GoPairs(refs).value[j].1)
    {
      GoPairAt(refs, j);
    }
  }

  /** The GO positions are increasing, name references of type GO, and name all of them. */
  lemma {:induction false} GoIndicesSpec(refs: seq<Json>)
    ensures var idx := GoIndices(refs);
      && (forall j :: 0 <= j < |idx| ==> idx[j] < |refs| && refs[idx[j]].JObj? && IsGo(refs[idx[j]]))
      && (forall j, j' :: 0 <= j < j' < |idx| ==> idx[j] < idx[j'])
      && (forall i :: 0 <= i < |refs| && refs[i].JObj? && IsGo(refs[i]) ==> i in idx)
    decreases |refs|
  {
    if refs != [] {
      var init := refs[..|refs| - 1];
      GoIndicesSpec(init);
      assert forall i :: 0 <= i < |init| ==> init[i] == refs[i];
    }
  }

  /** One pair per reference of type GO. */
  lemma {:induction false} GoPairsLength(refs: seq<Json>)
    requires GoPairs(refs).Some?
    ensures |GoIndices(refs)| == |GoPairs(refs).value|
    decreases |refs|
  {
    if refs != [] {
      GoPairsLength(refs[..|refs| - 1]);
    }
  }

  /** The `j`-th pair comes from the `j`-th reference of type GO. */
  lemma {:induction false} GoPairAt(refs: seq<Json>, j: nat)
    requires GoPairs(refs).Some? && j < |GoIndices(refs)|
    ensures GoIndices(refs)[j] < |refs| && refs[GoIndices(refs)[j]].JObj?
    ensures |GoIndices(refs)| == |GoPairs(refs).value|
    ensures GoPairs(refs).value[j].0 == Get(refs[GoIndices(refs)[j]], "id", JNull).value
    ensures Get(Get(refs[GoIndices(refs)[j]], "properties", NoFields).value, "term", JNull) == Some(GoPairs(refs).value[j].1)
    decreases |refs|
  {
    GoIndicesSpec(refs);
    GoPairsLength(refs);
    var init := refs[..|refs| - 1];
    GoIndicesSpec(init);
    GoPairsLength(init);
    if j < |GoIndices(init)| {
      GoPairAt(init, j);
      var i := GoIndices(init)[j];
      assert GoIndices(refs)[j] == i && refs[i] == init[i];
      assert GoPairs(refs).value[j] == GoPairs(init).value[j];
    } else {
      assert GoIndices(refs)[j] == |refs| - 1;
    }
  }

  /** `dict(zip(...))` raises exactly when some key is unhashable. */
  lemma {:induction false} ZipDictRaises(ps: seq<(Json, Json)>)
    ensures ZipDict(ps).Some? <==> forall i :: 0 <= i < |ps| ==> Hashable(ps[i].0)
    decreases |ps|
  {
    if ps != [] {
      var init := ps[..|ps| - 1];
      ZipDictRaises(init);
      assert forall i :: 0 <= i < |init| ==> init[i] == ps[i];
    }
  }

  /** The dict's keys are exactly the ids. */
  lemma {:induction false} ZipDictKeys(ps: seq<(Json, Json)>)
    requires ZipDict(ps).Some?
    ensures forall k :: k in ZipDict(ps).value <==> exists i :: 0 <= i < |ps| && ps[i].0 == k
    decreases |ps|
  {
    if ps != [] {
      var init := ps[..|ps| - 1];
      ZipDictKeys(init);
      var m := ZipDict(ps).value;
      forall k ensures k in m <==> exists i :: 0 <= i < |ps| && ps[i].0 == k {
        if exists i :: 0 <= i < |ps| && ps[i].0 == k {
          var i :| 0 <= i < |ps| && ps[i].0 == k;
          if i < |init| { assert init[i].0 == k; }
        }
        if k in ZipDict(init).value {
          var i :| 0 <= i < |init| && init[i].0 == k;
          assert ps[i].0 == k;
        }
      }
    }
  }

  /** An id that no later pair repeats holds its own term: the last pair with a key wins. */
  lemma {:induction false} ZipDictLastWins(ps: seq<(Json, Json)>, i: nat)
    requires ZipDict(ps).Some? && i < |ps|
    requires forall j :: i < j < |ps| ==> ps[j].0 != ps[i].0
    ensures ps[i].0 in ZipDict(ps).value && ZipDict(ps).value[ps[i].0] == ps[i].1
    decreases |ps|
  {
    var init := ps[..|ps| - 1];
    if i < |init| {
      assert init[i] == ps[i];
      forall j | i < j < |init| ensures init[j].0 != init[i].0 {
        assert init[j] == ps[j];
      }
      ZipDictLastWins(init, i);
    }
  }

  /** A key of the GO dict is the id of a reference of type GO. */
  lemma GoKeyFromRef(refs: seq<Json>, k: Json)
    requires GoPairs(refs).Some? && ZipDict(GoPairs(refs).value).Some?
    requires k in ZipDict(GoPairs(refs).value).value
    ensures exists i :: 0 <= i < |refs| && refs[i].JObj? && IsGo(refs[i]) && Get(refs[i], "id", JNull) == Some(k)
  {
    var ps := GoPairs(refs).value;
    GoPairsSpec(refs);
    ZipDictKeys(ps);
    var j :| 0 <= j < |ps| && ps[j].0 == k;
    assert ps[j] in ps;
    var i :| 0 <= i < |refs| && GoRef(refs[i]) == Some([ps[j]]);
  }

  /** The id of a reference of type GO is a key of the GO dict. */
  lemma GoRefKey(refs: seq<Json>, i: nat)
    requires GoPairs(refs).Some? && ZipDict(GoPairs(refs).value).Some?
    requires i < |refs| && refs[i].JObj? && IsGo(refs[i])
    ensures Get(refs[i], "id", JNull).value in ZipDict(GoPairs(refs).value).value
  {
    var ps := GoPairs(refs).value;
    GoPairsSpec(refs);
    ZipDictKeys(ps);
    var p := GoRef(refs[i]).value[0];
    assert p in ps;
    var j :| 0 <= j < |ps| && ps[j] == p;
  }

  /** The GO dict's keys are exactly the ids of the references of type GO. */
  lemma GoTermsKeys(data: Json, refs: seq<Json>)
    requires data.JObj? && "dbReferences" in data.fields && data.fields["dbReferences"] == JArr(refs)
    requires GoTermsOf(data).Some?
    ensures forall k :: k in GoTermsOf(data).value <==>
      exists i :: 0 <= i < |refs| && refs[i].JObj? && IsGo(refs[i]) && Get(refs[i], "id", JNull) == Some(k)
  {
    assert GoTermsOf(data) == ZipDict(GoPairs(refs).value);
    var m := GoTermsOf(data).value;
    forall k ensures k in m <==> exists i :: 0 <= i < |refs| && refs[i].JObj? && IsGo(refs[i]) && Get(refs[i], "id", JNull) == Some(k) {
      if k in m {
        GoKeyFromRef(refs, k);
      }
      if exists i :: 0 <= i < |refs| && refs[i].JObj? && IsGo(refs[i]) && Get(refs[i], "id", JNull) == Some(k) {
        var i :| 0 <= i < |refs| && refs[i].JObj? && IsGo(refs[i]) && Get(refs[i], "id", JNull) == Some(k);
        GoRefKey(refs, i);
      }
    }
  }

  /** Each GO id maps to the `properties.term` of the last reference of type GO that carries it. */
  lemma GoTermsValue(data: Json, refs: seq<Json>, i: nat)
    requires data.JObj? && "dbReferences" in data.fields && data.fields["dbReferences"] == JArr(refs)
    requires GoTermsOf(data).Some?
    requires i < |refs| && refs[i].JObj? && IsGo(refs[i])
    requires forall i' :: i < i' < |refs| && refs[i'].JObj? && IsGo(refs[i']) ==>
      Get(refs[i'], "id", JNull) != Get(refs[i], "id", JNull)
    ensures var k := Get(refs[i], "id", JNull).value;
      && k in GoTermsOf(data).value
      && Get(Get(refs[i], "properties", NoFields).value, "term", JNull) == Some(GoTermsOf(data).value[k])
  {
    assert GoTermsOf(data) == ZipDict(GoPairs(refs).value);
    var ps, idx := GoPairs(refs).value, GoIndices(refs);
    GoPairsOrder(refs);
    var j :| 0 <= j < |idx| && idx[j] == i;
    forall j' | j < j' < |ps| ensures ps[j'].0 != ps[j].0 {
      assert idx[j] < idx[j'];
    }
    ZipDictLastWins(ps, j);
  }

  // ---------------------------------------------------------------- sequence and the whole entry

  /** `sequence_info = data.get("sequence", {})`; only a truthy one is asked for its `sequence`. */
  function SequenceOf(data: Json): Option<Json>
  {
    match Get(data, "sequence", NoFields)
    case None => None
    case Some(si) => if !Truthy(si) then Some(NA) else Get(si, "sequence", NA)
  }

  /** `_parse_uniprot_data`: the five fields, or None when any step raises. */
  function ParseUniprot(data: Json): Option<Fields>
  {
    var gene, taxid, annotation, go, sequence := GeneOf(data), TaxidOf(data), AnnotationOf(data), GoTermsOf(data), SequenceOf(data);
    if gene.Some? && taxid.Some? && annotation.Some? && go.Some? && sequence.Some? then
      Some(Fields(gene.value, taxid.value, annotation.value, go.value, sequence.value))
    else None
  }

  /** An entry with none of the keys parses to the defaults: "N/A" text fields and no GO terms. */
  lemma EmptyEntryDefaults()
    ensures ParseUniprot(NoFields) == Some(Fields(NA, NA, NA, map[], NA))
  {
  }

  /** An empty `gene` list raises at `[0]`, and so does a value that is not a dict. */
  lemma EmptyGeneRaises(data: map<string, Json>, other: Json)
    requires "gene" in data && data["gene"] == JArr([])
    requires !other.JObj?
    ensures ParseUniprot(JObj(data)).None?
    ensures ParseUniprot(other).None?
  {
  }

  /** `_parse_uniprot_data` as written: the comment loop with its `break`, the reference loop
    * filling the two lists (kept as pairs), then `dict(zip(...))` built key by key. */
  method ParseUniprotData(data: Json) returns (r: Option<Fields>)
    ensures r == ParseUniprot(data)
  {
    var gene := GeneOf(data);
    var taxid := TaxidOf(data);
    if gene.None? || taxid.None? {
      return None;
    }
    var cs := DictLoop(Get(data, "comments", JArr([])).value);
    if cs.None? {
      return None;
    }
    var scan := ScanCommentList(cs.value);
    if scan.Raised? {
      return None;
    }
    var annotation := if scan.Annotated? then scan.value else NA;
    var refs := DictLoop(Get(data, "dbReferences", JArr([])).value);
    if refs.None? {
      return None;
    }
    var pairs := CollectGoPairs(refs.value);
    if pairs.None? {
      return None;
    }
    var go := ZipGoTerms(pairs.value);
    if go.None? {
      return None;
    }
    var sequence := SequenceOf(data);
    if sequence.None? {
      return None;
    }
    r := Some(Fields(gene.value, taxid.value, annotation, go.value, sequence.value));
  }

  /** The `for comment in comments` loop, leaving at the first annotation found. */
  method ScanCommentList(cs: seq<Json>) returns (r: Scan)
    ensures r == ScanComments(cs)
  {
    var i := 0;
    while i < |cs|
      invariant 0 <= i <= |cs|
      invariant ScanComments(cs[i..]) == ScanComments(cs)
    {
      assert cs[i..][1..] == cs[i + 1..];
      var step := CommentStep(cs[i]);
      if step.Raises? {
        return Raised;
      } else if step.Found? {
        return Annotated(step.value);
      }
      i := i + 1;
    }
    return NotAnnotated;
  }

  /** The `for ref in data.get("dbReferences", [])` loop, appending each GO reference's id and term. */
  method CollectGoPairs(refs: seq<Json>) returns (r: Option<seq<(Json, Json)>>)
    ensures r == GoPairs(refs)
  {
    var pairs: seq<(Json, Json)> := [];
    var j := 0;
    while j < |refs|
      invariant 0 <= j <= |refs|
      invariant GoPairs(refs[..j]) == Some(pairs)
    {
      assert refs[..j + 1][..j] == refs[..j];
      var ref := GoRef(refs[j]);
      if ref.None? {
        GoPairsSpec(refs);
        return None;
      }
      pairs := pairs + ref.value;
      j := j + 1;
    }
    assert refs[..j] == refs;
    return Some(pairs);
  }

  /** `dict(zip(go_terms, go_descripion))`, one pair at a time. */
  method ZipGoTerms(pairs: seq<(Json, Json)>) returns (r: Option<map<Json, Json>>)
    ensures r == ZipDict(pairs)
  {
    var go: map<Json, Json> := map[];
    var k := 0;
    while k < |pairs|
      invariant 0 <= k <= |pairs|
      invariant ZipDict(pairs[..k]) == Some(go)
    {
      assert pairs[..k + 1][..k] == pairs[..k];
      if !Hashable(pairs[k].0) {
        ZipDictRaises(pairs);
        return None;
      }
      go := go[pairs[k].0 := pairs[k].1];
      k := k + 1;
    }
    assert pairs[..k] == pairs;
    return Some(go);
  }
}
