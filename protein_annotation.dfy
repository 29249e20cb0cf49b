/**
 * The driver of BioTools/protein_annotation.py: the PDB mapping parser, the shared `error_ids`
 * buckets, `_get_protein_info` for one UniProt id and `get_proteins_info` for a list of them.
 * The two HTTP fetches are parameters: a function from the id to the decoded JSON body, with
 * `None` for a non-200 status or a connection error.
 */
module ProteinAnnotation {
  import opened Wrappers
  import opened PyJson
  import opened UniprotEntry

  /** A fetch as `_get_uniprot_data` and `_get_pdb_structures` perform it, seen from the caller. */
  type Fetch = string -> Option<Json>

  // ---------------------------------------------------------------- _parse_pdb_data

  /** `sub in s` on strings: `sub` occurs in `s` (the empty string occurs everywhere). */
  predicate Occurs(sub: string, s: string)
  {
    exists i :: 0 <= i <= |s| && sub <= s[i..]
  }

  /** `entry.get("pdb_id")` for every entry, or None when some entry is not a dict. */
  function PdbIdsOf(entries: seq<Json>): Option<seq<Json>>
    decreases |entries|
  {
    if entries == [] then Some([])
    else
      match PdbIdsOf(entries[..|entries| - 1])
      case None => None
      case Some(ids) =>
        match Get(entries[|entries| - 1], "pdb_id", JNull)
        case None => None
        case Some(id) => Some(ids + [id])
  }

  /** The `pdb_structures` list: empty unless `data` is truthy and holds `uniprot_id`. A list or a
    * string that holds it raises at `data[uniprot_id]`, a number or `true` already at `in`. */
  function PdbEntries(data: Json, uid: string): Option<seq<Json>>
  {
    if !Truthy(data) then Some([])
    else
      match data
      case JObj(m) =>
        if uid !in m then Some([])
        else
          (match DictLoop(m[uid])
           case None => None
           case Some(entries) => PdbIdsOf(entries))
      case JArr(xs) => if JStr(uid) in xs then None else Some([])
      case JStr(s) => if Occurs(uid, s) then None else Some([])
      case _ => None
  }

  predicate NoDuplicates(xs: seq<Json>)
  {
    forall i, j :: 0 <= i < j < |xs| ==> xs[i] != xs[j]
  }

  /** `list(set(xs))`, with the elements kept in the order of their first occurrence. */
  function Dedup(xs: seq<Json>): seq<Json>
    decreases |xs|
  {
    if xs == [] then []
    else
      var d := Dedup(xs[..|xs| - 1]);
      if xs[|xs| - 1] in d then d else d + [xs[|xs| - 1]]
  }

  /** The result holds every element of `xs`, each once. */
  lemma {:induction false} DedupSpec(xs: seq<Json>)
    ensures forall x :: x in Dedup(xs) <==> x in xs
    ensures NoDuplicates(Dedup(xs))
    decreases |xs|
  {
    if xs != [] {
      DedupSpec(xs[..|xs| - 1]);
      assert forall x :: x in xs <==> x in xs[..|xs| - 1] || x == xs[|xs| - 1];
    }
  }

  /** `_parse_pdb_data`: the distinct `pdb_id`s, or None when it raises (an unhashable id included). */
  function ParsePdb(data: Json, uid: string): Option<seq<Json>>
  {
    match PdbEntries(data, uid)
    case None => None
    case Some(ids) => if forall i :: 0 <= i < |ids| ==> Hashable(ids[i]) then Some(Dedup(ids)) else None
  }

  /** The ids collected are those of the entries of `data[uid]`, in order. */
  lemma {:induction false} PdbIdsOfSpec(entries: seq<Json>)
    ensures PdbIdsOf(entries).Some? <==> forall i :: 0 <= i < |entries| ==> entries[i].JObj?
    ensures PdbIdsOf(entries).Some? ==>
      |PdbIdsOf(entries).value| == |entries|
      && forall i :: 0 <= i < |entries| ==> Some(PdbIdsOf(entries).value[i]) == Get(entries[i], "pdb_id", JNull)
    decreases |entries|
  {
    if entries != [] {
      var init := entries[..|entries| - 1];
      PdbIdsOfSpec(init);
      assert forall i :: 0 <= i < |init| ==> init[i] == entries[i];
    }
  }

  /** A parsed mapping lists every `pdb_id` under `data[uid]` exactly once. */
  lemma ParsePdbSpec(m: map<string, Json>, uid: string, entries: seq<Json>)
    requires uid in m && m[uid] == JArr(entries)
    requires ParsePdb(JObj(m), uid).Some?
    ensures NoDuplicates(ParsePdb(JObj(m), uid).value)
    ensures forall x :: x in ParsePdb(JObj(m), uid).value <==>
      exists i :: 0 <= i < |entries| && Get(entries[i], "pdb_id", JNull) == Some(x)
  {
    PdbIdsOfSpec(entries);
    var ids := PdbIdsOf(entries).value;
    DedupSpec(ids);
    forall x ensures x in ids <==> exists i :: 0 <= i < |entries| && Get(entries[i], "pdb_id", JNull) == Some(x) {
      if x in ids {
        var i :| 0 <= i < |ids| && ids[i] == x;
      }
    }
  }

  /** Nothing to parse gives no structures: a falsy body, or one without the id. */
  lemma ParsePdbEmpty(data: Json, uid: string)
    requires !Truthy(data) || (data.JObj? && uid !in data.fields)
    ensures ParsePdb(data, uid) == Some([])
  {
  }

  /** The loop of lines 80-81: `entry.get("pdb_id")` appended for each entry. */
  method CollectPdbIds(entries: seq<Json>) returns (r: Option<seq<Json>>)
    ensures r == PdbIdsOf(entries)
  {
    var structures: seq<Json> := [];
    var i := 0;
    while i < |entries|
      invariant 0 <= i <= |entries|
      invariant PdbIdsOf(entries[..i]) == Some(structures)
    {
      assert entries[..i + 1][..i] == entries[..i];
      var id := Get(entries[i], "pdb_id", JNull);
      if id.None? {
        PdbIdsOfSpec(entries);
        return None;
      }
      structures := structures + [id.value];
      i := i + 1;
    }
    assert entries[..i] == entries;
    r := Some(structures);
  }

  /** `list(set(structures))`, built element by element; an unhashable element raises. */
  method Distinct(structures: seq<Json>) returns (r: Option<seq<Json>>)
    ensures r == if forall i :: 0 <= i < |structures| ==> Hashable(structures[i]) then Some(Dedup(structures)) else None
  {
    var distinct: seq<Json> := [];
    var k := 0;
    while k < |structures|
      invariant 0 <= k <= |structures|
      invariant distinct == Dedup(structures[..k])
      invariant forall j :: 0 <= j < k ==> Hashable(structures[j])
    {
      assert structures[..k + 1][..k] == structures[..k];
      if !Hashable(structures[k]) {
        return None;
      }
      if structures[k] !in distinct {
        distinct := distinct + [structures[k]];
      }
      k := k + 1;
    }
    assert structures[..k] == structures;
    r := Some(distinct);
  }

  /** `_parse_pdb_data` as written. */
  method ParsePdbData(data: Json, uid: string) returns (r: Option<seq<Json>>)
    ensures r == ParsePdb(data, uid)
  {
    var structures := PdbEntries(data, uid);
    if Truthy(data) && data.JObj? && uid in data.fields {
      var entries := DictLoop(data.fields[uid]);
      if entries.None? {
        return None;
      }
      structures := CollectPdbIds(entries.value);
    }
    if structures.None? {
      return None;
    }
    r := Distinct(structures.value);
  }

  // ---------------------------------------------------------------- error_ids

  /** The `error_ids` dict: a bucket name to the ids filed under it, in the order they were filed. */
  type Buckets = map<string, seq<string>>

  const BucketNames: set<string> := {"UniProtID", "PDB", "Gene", "GO_terms", "TaxID", "Annotation", "ParseError"}

  const InitialBuckets: Buckets :=
    map["UniProtID" := [], "PDB" := [], "Gene" := [], "GO_terms" := [], "TaxID" := [], "Annotation" := [], "ParseError" := []]

  /** `error_ids[key].append(id)` on a key the dict has. */
  function Add(b: Buckets, key: string, id: string): Buckets
    requires key in b
  {
    b[key := b[key] + [id]]
  }

  /** The shared `error_ids` dict that every `_get_protein_info` call appends to. */
  class ErrorIds {
    var buckets: Buckets

    constructor ()
      ensures buckets == InitialBuckets
    {
      buckets := InitialBuckets;
    }

    /** `error_ids[key].append(id)`; false is the KeyError of a bucket the dict does not have. */
    method Append(key: string, id: string) returns (ok: bool)
      modifies this
      ensures ok <==> key in old(buckets)
      ensures buckets == if ok then Add(old(buckets), key, id) else old(buckets)
    {
      ok := key in buckets;
      if ok {
        buckets := Add(buckets, key, id);
      }
    }
  }

  // ---------------------------------------------------------------- _get_protein_info

  /** The check of line 99, `v == "N/A" or v == [] or v == {}`. */
  predicate IsDefault(v: Json)
  {
    v == NA || v == JArr([]) || v == NoFields
  }

  /** `result.items()` at that point: each field's name and whether it holds a default. */
  function Checks(f: Fields): seq<(string, bool)>
  {
    [("Gene", IsDefault(f.gene)), ("TaxID", IsDefault(f.taxid)), ("Annotation", IsDefault(f.annotation)),
     ("GO_terms", f.goTerms == map[]), ("Sequence", IsDefault(f.sequence))]
  }

  /** The loop of lines 98-100: each defaulted field files the id under its own name; a name that is
    * not a bucket (only "Sequence" can be one) raises KeyError, which is None. */
  function MarkDefaults(id: string, checks: seq<(string, bool)>, b: Buckets): (r: Option<Buckets>)
    ensures r.Some? ==> r.value.Keys == b.Keys
    decreases |checks|
  {
    if checks == [] then Some(b)
    else
      var last := checks[|checks| - 1];
      match MarkDefaults(id, checks[..|checks| - 1], b)
      case None => None
      case Some(b1) =>
        if !last.1 then Some(b1)
        else if last.0 in b1 then Some(Add(b1, last.0, id))
        else None
  }

  /** The loop raises exactly when a defaulted name is not a bucket. */
  lemma {:induction false} MarkDefaultsRaises(id: string, checks: seq<(string, bool)>, b: Buckets)
    ensures MarkDefaults(id, checks, b).Some? <==> forall i :: 0 <= i < |checks| && checks[i].1 ==> checks[i].0 in b
    decreases |checks|
  {
    if checks != [] {
      var init := checks[..|checks| - 1];
      assert forall i :: 0 <= i < |init| ==> init[i] == checks[i];
      MarkDefaultsRaises(id, init, b);
    }
  }

  /** With distinct names, the loop files the id once under each defaulted name and nowhere else. */
  lemma {:induction false} MarkDefaultsFiles(id: string, checks: seq<(string, bool)>, b: Buckets)
    requires forall i, j :: 0 <= i < j < |checks| ==> checks[i].0 != checks[j].0
    requires MarkDefaults(id, checks, b).Some?
    ensures forall k :: k in b ==> MarkDefaults(id, checks, b).value[k] == b[k] + (if (k, true) in checks then [id] else [])
    decreases |checks|
  {
    if checks != [] {
      var init := checks[..|checks| - 1];
      var last := checks[|checks| - 1];
      assert forall i :: 0 <= i < |init| ==> init[i] == checks[i];
      MarkDefaultsFiles(id, init, b);
      assert forall c :: c in checks <==> c in init || c == last;
      assert last.1 ==> (last.0, true) !in init;
    }
  }

  /** What `_get_protein_info` gives the gather: `None`, the result dict, or the exception it raises. */
  datatype Outcome = Skipped | Done(record: Record) | Crashed

  /** The result dict: the parsed fields plus the `PDB` and `UniProtID` keys added last. */
  datatype Record = Record(fields: Fields, pdb: seq<Json>, uniprotId: string)

  predicate HasBuckets(b: Buckets)
  {
    BucketNames <= b.Keys
  }

  /** `_get_protein_info` for `id`, given the two fetch results and the buckets before the call:
    * its outcome and the buckets after it. A crash's partial appends are not part of the state,
    * since the exception makes `get_proteins_info` itself raise. */
  function Info(id: string, u: Option<Json>, p: Option<Json>, b: Buckets): (r: (Outcome, Buckets))
    requires HasBuckets(b)
    ensures r.1.Keys == b.Keys
  {
    if u.None? || !Truthy(u.value) then (Skipped, Add(b, "UniProtID", id))
    else
      match ParseUniprot(u.value)
      case None => (Skipped, Add(b, "ParseError", id))
      case Some(f) => Finish(id, f, PdbStepOf(p, id), b)
  }

  /** What the PDB half of `_get_protein_info` has to go on: the fetch failed, it gave a falsy body,
    * or `_parse_pdb_data` ran on the body (None when it raised). */
  datatype PdbStep = NoPdb | EmptyPdb | PdbParsed(structures: Option<seq<Json>>)

  function PdbStepOf(p: Option<Json>, id: string): PdbStep
  {
    if p.None? then NoPdb
    else if !Truthy(p.value) then EmptyPdb
    else PdbParsed(ParsePdb(p.value, id))
  }

  /** The rest of `_get_protein_info` once the entry has parsed to `f`: the defaulted fields are
    * filed, then the PDB structures are attached. */
  function Finish(id: string, f: Fields, pdb: PdbStep, b: Buckets): (r: (Outcome, Buckets))
    requires HasBuckets(b)
    ensures r.1.Keys == b.Keys
  {
    match MarkDefaults(id, Checks(f), b)
    case None => (Crashed, b)
    case Some(b1) =>
      match pdb
      case NoPdb => (Done(Record(f, [], id)), Add(b1, "PDB", id))
      case EmptyPdb => (Done(Record(f, [], id)), b1)
      case PdbParsed(None) => (Crashed, b1)
      case PdbParsed(Some(structures)) => (Done(Record(f, structures, id)), b1)
  }

  /** The loop of lines 98-100 on the shared buckets; false is the KeyError it raises. */
  method FileDefaults(id: string, checks: seq<(string, bool)>, errors: ErrorIds) returns (ok: bool)
    modifies errors
    ensures ok <==> MarkDefaults(id, checks, old(errors.buckets)).Some?
    ensures ok ==> errors.buckets == MarkDefaults(id, checks, old(errors.buckets)).value
  {
    var i := 0;
    while i < |checks|
      invariant 0 <= i <= |checks|
      invariant MarkDefaults(id, checks[..i], old(errors.buckets)) == Some(errors.buckets)
    {
      assert checks[..i + 1][..i] == checks[..i];
      if checks[i].1 {
        ok := errors.Append(checks[i].0, id);
        if !ok {
          MarkDefaultsStays(id, checks, i + 1, old(errors.buckets));
          return;
        }
      }
      i := i + 1;
    }
    assert checks[..i] == checks;
    ok := true;
  }

  /** Once a defaulted name has raised, the rest of the loop does not run. */
  lemma {:induction false} MarkDefaultsStays(id: string, checks: seq<(string, bool)>, n: nat, b: Buckets)
    requires n <= |checks| && MarkDefaults(id, checks[..n], b).None?
    ensures MarkDefaults(id, checks, b).None?
    decreases |checks| - n
  {
    if n < |checks| {
      assert checks[..n + 1][..n] == checks[..n];
      MarkDefaultsStays(id, checks, n + 1, b);
    } else {
      assert checks[..n] == checks;
    }
  }

  /** `_get_protein_info` as written, appending to the shared buckets. */
  method GetProteinInfo(id: string, uniprot: Fetch, pdb: Fetch, errors: ErrorIds) returns (r: Outcome)
    requires HasBuckets(errors.buckets)
    modifies errors
    ensures r == Info(id, uniprot(id), pdb(id), old(errors.buckets)).0
    ensures r != Crashed ==> errors.buckets == Info(id, uniprot(id), pdb(id), old(errors.buckets)).1
  {
    var data := uniprot(id);
    if data.None? || !Truthy(data.value) {
      var _ := errors.Append("UniProtID", id);
      return Skipped;
    }
    var fields := ParseUniprotData(data.value);
    if fields.None? {
      var _ := errors.Append("ParseError", id);
      return Skipped;
    }
    var ok := FileDefaults(id, Checks(fields.value), errors);
    if !ok {
      return Crashed;
    }
    var pdbData := pdb(id);
    var structures: seq<Json> := [];
    if pdbData.None? {
      var _ := errors.Append("PDB", id);
    } else if Truthy(pdbData.value) {
      var parsed := ParsePdbData(pdbData.value, id);
      if parsed.None? {
        return Crashed;
      }
      structures := parsed.value;
    }
    r := Done(Record(fields.value, structures, id));
  }

  // ---------------------------------------------------------------- what one id does

  /** The field named `k` holds its default, so the loop of lines 98-100 files the id under `k`. */
  predicate HoldsDefault(f: Fields, k: string)
  {
    (k, true) in Checks(f)
  }

  /** Whether the UniProt fetch gave a body that `_parse_uniprot_data` accepted. */
  predicate Parsed(u: Option<Json>)
  {
    u.Some? && Truthy(u.value) && ParseUniprot(u.value).Some?
  }

  lemma ChecksDistinct(f: Fields)
    ensures forall i, j :: 0 <= i < j < |Checks(f)| ==> Checks(f)[i].0 != Checks(f)[j].0
  {
  }

  /** An id is skipped exactly when its entry is missing, falsy or unparsable; it is then filed
    * under "UniProtID" (nothing fetched) or "ParseError" (nothing parsed), and nowhere else. */
  lemma InfoSkipped(id: string, u: Option<Json>, p: Option<Json>, b: Buckets)
    requires HasBuckets(b)
    ensures Info(id, u, p, b).0 == Skipped <==> !Parsed(u)
    ensures !Parsed(u) ==>
      var bucket := if u.None? || !Truthy(u.value) then "UniProtID" else "ParseError";
      forall k :: k in b ==> Info(id, u, p, b).1[k] == b[k] + (if k == bucket then [id] else [])
  {
  }

  /** With the seven buckets, a parsed entry raises exactly when its sequence is a default (there is
    * no "Sequence" bucket) or when the PDB body is truthy and `_parse_pdb_data` raises on it. */
  lemma FinishCrashed(id: string, f: Fields, pdb: PdbStep, b: Buckets)
    requires b.Keys == BucketNames
    ensures Finish(id, f, pdb, b).0 == Crashed <==> IsDefault(f.sequence) || pdb == PdbParsed(None)
  {
    MarkDefaultsRaises(id, Checks(f), b);
    assert Checks(f)[4] == ("Sequence", IsDefault(f.sequence));
  }

  /** An entry with no `sequence` parses, then raises KeyError at `error_ids['Sequence']`. */
  lemma EntryWithoutSequenceRaises(id: string, p: Option<Json>)
    ensures Info(id, Some(JObj(map["accession" := JStr(id)])), p, InitialBuckets).0 == Crashed
  {
    var data := JObj(map["accession" := JStr(id)]);
    var f := Fields(NA, NA, NA, map[], NA);
    assert ParseUniprot(data) == Some(f);
    assert InitialBuckets.Keys == BucketNames;
    assert "accession" in data.fields && Truthy(data);
    FinishCrashed(id, f, PdbStepOf(p, id), InitialBuckets);
    assert Info(id, Some(data), p, InitialBuckets) == Finish(id, f, PdbStepOf(p, id), InitialBuckets);
  }

  /** An unhashable GO id raises inside `_parse_uniprot_data`, so the `except` files the id under
    * "ParseError" and the call returns None: the batch goes on. */
  lemma UnhashableGoIdIsParseError(id: string, p: Option<Json>, b: Buckets)
    requires HasBuckets(b)
    ensures var data := JObj(map["dbReferences" := JArr([JObj(map["type" := JStr("GO"), "id" := JArr([])])])]);
      Info(id, Some(data), p, b) == (Skipped, Add(b, "ParseError", id))
  {
    var r := JObj(map["type" := JStr("GO"), "id" := JArr([])]);
    var data := JObj(map["dbReferences" := JArr([r])]);
    assert GoRef(r) == Some([(JArr([]), JNull)]);
    assert [r][..0] == [] && [r][0] == r;
    assert GoPairs([]) == Some([]);
    assert GoPairs([r]) == Some([] + [(JArr([]), JNull)]);
    assert [(JArr([]), JNull)][..0] == [];
    assert ZipDict([(JArr([]), JNull)]).None?;
    assert GoTermsOf(data).None?;
  }

  lemma InfoCrashed(id: string, u: Option<Json>, p: Option<Json>, b: Buckets)
    requires b.Keys == BucketNames && Parsed(u)
    ensures Info(id, u, p, b).0 == Crashed <==>
      IsDefault(ParseUniprot(u.value).value.sequence) || (p.Some? && Truthy(p.value) && ParsePdb(p.value, id).None?)
  {
    FinishCrashed(id, ParseUniprot(u.value).value, PdbStepOf(p, id), b);
  }

  /** A finished entry keeps its fields and its id and gets its PDB structures (none when the fetch
    * failed or gave a falsy body); the id is filed under each defaulted field's name, under "PDB"
    * when that fetch failed, and nowhere else. */
  lemma FinishRecord(id: string, f: Fields, pdb: PdbStep, b: Buckets)
    requires HasBuckets(b) && Finish(id, f, pdb, b).0.Done?
    ensures var rec := Finish(id, f, pdb, b).0.record;
      && rec.uniprotId == id
      && rec.fields == f
      && rec.pdb == (if pdb.PdbParsed? then pdb.structures.value else [])
  {
  }

  lemma FinishDone(id: string, f: Fields, pdb: PdbStep, b: Buckets)
    requires HasBuckets(b) && Finish(id, f, pdb, b).0.Done?
    ensures forall k :: k in b ==>
      Finish(id, f, pdb, b).1[k] == b[k] + (if HoldsDefault(f, k) || (k == "PDB" && pdb == NoPdb) then [id] else [])
  {
    ChecksDistinct(f);
    MarkDefaultsFiles(id, Checks(f), b);
    var b1 := MarkDefaults(id, Checks(f), b).value;
    assert Finish(id, f, pdb, b).1 == if pdb == NoPdb then Add(b1, "PDB", id) else b1;
    assert !HoldsDefault(f, "PDB");
  }

  lemma InfoDone(id: string, u: Option<Json>, p: Option<Json>, b: Buckets)
    requires HasBuckets(b) && Info(id, u, p, b).0.Done?
    ensures Parsed(u)
    ensures var rec := Info(id, u, p, b).0.record;
      && rec.uniprotId == id
      && Some(rec.fields) == ParseUniprot(u.value)
      && rec.pdb == (if p.None? || !Truthy(p.value) then [] else ParsePdb(p.value, id).value)
    ensures forall k :: k in b ==>
      Info(id, u, p, b).1[k] == b[k] + (if HoldsDefault(ParseUniprot(u.value).value, k) || (k == "PDB" && p.None?) then [id] else [])
  {
    FinishRecord(id, ParseUniprot(u.value).value, PdbStepOf(p, id), b);
    FinishDone(id, ParseUniprot(u.value).value, PdbStepOf(p, id), b);
  }

  /** The outcome for an id does not depend on what the other ids filed before it. */
  lemma InfoOutcomeIndependent(id: string, u: Option<Json>, p: Option<Json>, b1: Buckets, b2: Buckets)
    requires HasBuckets(b1) && b1.Keys == b2.Keys
    ensures Info(id, u, p, b1).0 == Info(id, u, p, b2).0
  {
    if Parsed(u) {
      var f := ParseUniprot(u.value).value;
      MarkDefaultsRaises(id, Checks(f), b1);
      MarkDefaultsRaises(id, Checks(f), b2);
      assert Finish(id, f, PdbStepOf(p, id), b1).0 == Finish(id, f, PdbStepOf(p, id), b2).0;
    }
  }

  // ---------------------------------------------------------------- get_proteins_info

  /** One `_get_protein_info` call as the gather sees it: the id and the buckets before it, to its
    * outcome and the buckets after it. */
  type Step = (string, Buckets) -> (Outcome, Buckets)

  /** The call for the fetches `uniprot` and `pdb`; on a dict without the seven buckets the first
    * append would raise KeyError. */
  function CallFor(uniprot: Fetch, pdb: Fetch): Step
  {
    (id: string, b: Buckets) => if HasBuckets(b) then Info(id, uniprot(id), pdb(id), b) else (Crashed, b)
  }

  /** The gather over `ids` with `step` for each call, one after another in input order, from the
    * initial buckets: each id's outcome and the buckets after the last call, or None when one raised. */
  function Gather(ids: seq<string>, step: Step): Option<(seq<Outcome>, Buckets)>
    decreases |ids|
  {
    if ids == [] then Some(([], InitialBuckets))
    else
      match Gather(ids[..|ids| - 1], step)
      case None => None
      case Some(g) =>
        var (o, b) := step(ids[|ids| - 1], g.1);
        if o.Crashed? then None else Some((g.0 + [o], b))
  }

  /** `tqdm.gather` over the tasks of `get_proteins_info`. */
  function Gathered(ids: seq<string>, uniprot: Fetch, pdb: Fetch): Option<(seq<Outcome>, Buckets)>
  {
    Gather(ids, CallFor(uniprot, pdb))
  }

  /** `[res for res in results if res is not None]`. */
  function ValidResults(os: seq<Outcome>): seq<Record>
    decreases |os|
  {
    if os == [] then []
    else ValidResults(os[..|os| - 1]) + (if os[|os| - 1].Done? then [os[|os| - 1].record] else [])
  }

  /** `get_proteins_info`: the valid results and the buckets, or None when it raises. */
  function ProteinsInfo(ids: seq<string>, uniprot: Fetch, pdb: Fetch): Option<(seq<Record>, Buckets)>
  {
    match Gathered(ids, uniprot, pdb)
    case None => None
    case Some(g) => Some((ValidResults(g.0), g.1))
  }

  /** Once a call has raised, the whole gather raises. */
  lemma {:induction false} GatherCrashStays(ids: seq<string>, n: nat, step: Step)
    requires n <= |ids| && Gather(ids[..n], step).None?
    ensures Gather(ids, step).None?
    decreases |ids| - n
  {
    if n < |ids| {
      assert ids[..n + 1][..n] == ids[..n];
      GatherCrashStays(ids, n + 1, step);
    } else {
      assert ids[..n] == ids;
    }
  }

  /** `get_proteins_info` as written, with the tasks run one after another in input order. */
  method GetProteinsInfo(ids: seq<string>, uniprot: Fetch, pdb: Fetch) returns (r: Option<(seq<Record>, Buckets)>)
    ensures r == ProteinsInfo(ids, uniprot, pdb)
  {
    var errors := new ErrorIds();
    var results: seq<Outcome> := [];
    var i := 0;
    while i < |ids|
      invariant 0 <= i <= |ids|
      invariant errors.buckets.Keys == BucketNames
      invariant Gather(ids[..i], CallFor(uniprot, pdb)) == Some((results, errors.buckets))
    {
      assert ids[..i + 1][..i] == ids[..i];
      ghost var before := errors.buckets;
      var o := GetProteinInfo(ids[i], uniprot, pdb, errors);
      ghost var step := Info(ids[i], uniprot(ids[i]), pdb(ids[i]), before);
      assert CallFor(uniprot, pdb)(ids[i], before) == step;
      if o.Crashed? {
        GatherCrashStays(ids, i + 1, CallFor(uniprot, pdb));
        return None;
      }
      results := results + [o];
      i := i + 1;
    }
    assert ids[..i] == ids;
    r := Some((ValidResults(results), errors.buckets));
  }

  // ---------------------------------------------------------------- what the whole run does

  /** The valid results are exactly the finished outcomes' records, one per finished outcome. */
  lemma {:induction false} ValidResultsSpec(os: seq<Outcome>)
    ensures forall r :: r in ValidResults(os) <==> Done(r) in os
    ensures |ValidResults(os)| == |set i | 0 <= i < |os| && os[i].Done?|
    decreases |os|
  {
    if os != [] {
      var init := os[..|os| - 1];
      ValidResultsSpec(init);
      assert forall o :: o in os <==> o in init || o == os[|os| - 1];
      var done := set i | 0 <= i < |os| && os[i].Done?;
      var before := set i | 0 <= i < |init| && init[i].Done?;
      assert done == before + (if os[|os| - 1].Done? then {|os| - 1} else {});
    }
  }

  /** The positions of the finished outcomes, in increasing order. */
  function DoneIndices(os: seq<Outcome>): seq<nat>
    decreases |os|
  {
    if os == [] then []
    else DoneIndices(os[..|os| - 1]) + (if os[|os| - 1].Done? then [|os| - 1] else [])
  }

  /** The valid results keep the order of the outcomes: the `j`-th is the record of the `j`-th
    * finished outcome, and every finished outcome is listed. */
  lemma {:induction false} ValidResultsOrder(os: seq<Outcome>)
    ensures var idx := DoneIndices(os);
      && |idx| == |ValidResults(os)|
      && (forall j :: 0 <= j < |idx| ==> idx[j] < |os| && os[idx[j]] == Done(ValidResults(os)[j]))
      && (forall j, j' :: 0 <= j < j' < |idx| ==> idx[j] < idx[j'])
      && (forall i :: 0 <= i < |os| && os[i].Done? ==> i in idx)
    decreases |os|
  {
    if os != [] {
      var init := os[..|os| - 1];
      ValidResultsOrder(init);
      assert forall i :: 0 <= i < |init| ==> init[i] == os[i];
    }
  }

  /** A call keeps the bucket names, and its outcome does not depend on what was filed before it. */
  ghost predicate Independent(step: Step)
  {
    && (forall id: string, b: Buckets :: step(id, b).1.Keys == b.Keys)
    && (forall id: string, b: Buckets :: b.Keys == BucketNames ==> step(id, b).0 == step(id, InitialBuckets).0)
  }

  /** A call files its id under some buckets and nowhere else; a call that does not raise files it
    * under exactly one of "UniProtID" and "ParseError" unless it gives a result for that id. */
  ghost predicate Files(step: Step)
  {
    forall id: string, b: Buckets :: b.Keys == BucketNames ==> FilesAt(step, id, b)
  }

  /** The filing of one call for `id` on the seven buckets `b`. */
  ghost predicate FilesAt(step: Step, id: string, b: Buckets)
    requires b.Keys == BucketNames
  {
    && step(id, b).1.Keys == b.Keys
    && (forall k :: k in b ==> step(id, b).1[k] == b[k] || step(id, b).1[k] == b[k] + [id])
    && (step(id, b).0 != Crashed ==>
          |step(id, b).1["UniProtID"]| + |step(id, b).1["ParseError"]| + (if step(id, b).0.Done? then 1 else 0)
          == |b["UniProtID"]| + |b["ParseError"]| + 1)
    && (step(id, b).0.Done? ==> step(id, b).0.record.uniprotId == id)
  }

  /** The filing of a finished entry: defaulted fields and a failed PDB fetch only. */
  lemma FinishFilesDone(id: string, f: Fields, pdb: PdbStep, b: Buckets)
    requires b.Keys == BucketNames && Finish(id, f, pdb, b).0.Done?
    ensures var b1 := Finish(id, f, pdb, b).1;
      && (forall k :: k in b ==> b1[k] == b[k] || b1[k] == b[k] + [id])
      && b1["UniProtID"] == b["UniProtID"] && b1["ParseError"] == b["ParseError"]
  {
    FinishDone(id, f, pdb, b);
    assert !HoldsDefault(f, "UniProtID") && !HoldsDefault(f, "ParseError");
  }

  /** The filing of an entry that raises: the defaulted fields filed before the raise. */
  lemma FinishFilesCrashed(id: string, f: Fields, pdb: PdbStep, b: Buckets)
    requires b.Keys == BucketNames && !Finish(id, f, pdb, b).0.Done?
    ensures var b1 := Finish(id, f, pdb, b).1;
      forall k :: k in b ==> b1[k] == b[k] || b1[k] == b[k] + [id]
  {
    if MarkDefaults(id, Checks(f), b).Some? {
      ChecksDistinct(f);
      MarkDefaultsFiles(id, Checks(f), b);
    }
  }

  /** The filing of a parsed entry, on the seven buckets. */
  lemma FinishFiles(id: string, f: Fields, pdb: PdbStep, b: Buckets)
    requires b.Keys == BucketNames
    ensures var (o, b1) := Finish(id, f, pdb, b);
      && (forall k :: k in b ==> b1[k] == b[k] || b1[k] == b[k] + [id])
      && (o.Done? ==> b1["UniProtID"] == b["UniProtID"] && b1["ParseError"] == b["ParseError"] && o.record.uniprotId == id)
  {
    if Finish(id, f, pdb, b).0.Done? {
      FinishRecord(id, f, pdb, b);
      FinishFilesDone(id, f, pdb, b);
    } else {
      FinishFilesCrashed(id, f, pdb, b);
    }
  }

  /** The outcome and filing of one call, on the seven buckets. */
  lemma InfoFiles(id: string, u: Option<Json>, p: Option<Json>, b: Buckets)
    requires b.Keys == BucketNames
    ensures var (o, b1) := Info(id, u, p, b);
      && (forall k :: k in b ==> b1[k] == b[k] || b1[k] == b[k] + [id])
      && (o != Crashed ==> |b1["UniProtID"]| + |b1["ParseError"]| + (if o.Done? then 1 else 0) == |b["UniProtID"]| + |b["ParseError"]| + 1)
      && (o.Done? ==> o.record.uniprotId == id)
  {
    InfoSkipped(id, u, p, b);
    if Parsed(u) {
      FinishFiles(id, ParseUniprot(u.value).value, PdbStepOf(p, id), b);
    }
  }

  lemma CallIndependent(uniprot: Fetch, pdb: Fetch)
    ensures Independent(CallFor(uniprot, pdb))
  {
    var step := CallFor(uniprot, pdb);
    forall id: string, b: Buckets ensures step(id, b).1.Keys == b.Keys {
      if HasBuckets(b) {
        var r := Info(id, uniprot(id), pdb(id), b);
        assert step(id, b) == r;
      }
    }
    forall id: string, b: Buckets | b.Keys == BucketNames ensures step(id, b).0 == step(id, InitialBuckets).0 {
      assert step(id, b) == Info(id, uniprot(id), pdb(id), b);
      assert step(id, InitialBuckets) == Info(id, uniprot(id), pdb(id), InitialBuckets);
      InfoOutcomeIndependent(id, uniprot(id), pdb(id), b, InitialBuckets);
    }
  }

  lemma CallFilesAt(uniprot: Fetch, pdb: Fetch, id: string, b: Buckets)
    requires b.Keys == BucketNames
    ensures FilesAt(CallFor(uniprot, pdb), id, b)
  {
    assert CallFor(uniprot, pdb)(id, b) == Info(id, uniprot(id), pdb(id), b);
    InfoFiles(id, uniprot(id), pdb(id), b);
  }

  lemma CallFiles(uniprot: Fetch, pdb: Fetch)
    ensures Files(CallFor(uniprot, pdb))
  {
    forall id: string, b: Buckets | b.Keys == BucketNames ensures FilesAt(CallFor(uniprot, pdb), id, b) {
      CallFilesAt(uniprot, pdb, id, b);
    }
  }

  /** Each id's outcome in the gather is the one it has on its own. */
  lemma {:induction false} GatherOutcomes(ids: seq<string>, step: Step)
    requires Independent(step) && Gather(ids, step).Some?
    ensures Gather(ids, step).value.1.Keys == BucketNames && |Gather(ids, step).value.0| == |ids|
    ensures forall i :: 0 <= i < |ids| ==> Gather(ids, step).value.0[i] == step(ids[i], InitialBuckets).0
    decreases |ids|
  {
    if ids != [] {
      var init := ids[..|ids| - 1];
      GatherOutcomes(init, step);
      assert forall i :: 0 <= i < |init| ==> init[i] == ids[i];
    }
  }

  /** The gather raises exactly when the call for some id raises on its own. */
  lemma {:induction false} GatherCrash(ids: seq<string>, step: Step)
    requires Independent(step)
    ensures Gather(ids, step).None? <==> exists i :: 0 <= i < |ids| && step(ids[i], InitialBuckets).0 == Crashed
    decreases |ids|
  {
    if ids != [] {
      var init := ids[..|ids| - 1];
      GatherCrash(init, step);
      assert forall i :: 0 <= i < |init| ==> init[i] == ids[i];
      if Gather(init, step).Some? {
        GatherOutcomes(init, step);
      }
    }
  }

  /** Every id is accounted for once: by a result, or in "UniProtID" or "ParseError". */
  lemma {:induction false} GatherCounts(ids: seq<string>, step: Step)
    requires Independent(step) && Files(step) && Gather(ids, step).Some?
    ensures Gather(ids, step).value.1.Keys == BucketNames
    ensures var g := Gather(ids, step).value;
      |ValidResults(g.0)| + |g.1["UniProtID"]| + |g.1["ParseError"]| == |ids|
    decreases |ids|
  {
    GatherOutcomes(ids, step);
    if ids != [] {
      var init := ids[..|ids| - 1];
      GatherCounts(init, step);
      var g0 := Gather(init, step).value;
      var r := step(ids[|ids| - 1], g0.1);
      assert FilesAt(step, ids[|ids| - 1], g0.1);
      assert Gather(ids, step).value == (g0.0 + [r.0], r.1);
      assert (g0.0 + [r.0])[..|g0.0|] == g0.0;
    }
  }

  /** The buckets hold only ids of the input. */
  lemma {:induction false} GatherFilesInput(ids: seq<string>, step: Step)
    requires Independent(step) && Files(step) && Gather(ids, step).Some?
    ensures var g := Gather(ids, step).value;
      forall k, x :: k in g.1 && x in g.1[k] ==> x in ids
    decreases |ids|
  {
    if ids != [] {
      var init := ids[..|ids| - 1];
      var id := ids[|ids| - 1];
      GatherFilesInput(init, step);
      GatherOutcomes(init, step);
      var g0 := Gather(init, step).value;
      var r := step(id, g0.1);
      assert FilesAt(step, id, g0.1);
      assert Gather(ids, step).value.1 == r.1;
      forall k, x | k in r.1 && x in r.1[k] ensures x in ids {
        assert x in g0.1[k] || x == id;
        if x in g0.1[k] {
          assert x in init;
        }
      }
    }
  }

  /** Every finished outcome carries the id it was asked for. */
  lemma {:induction false} GatherRecordIds(ids: seq<string>, step: Step)
    requires Independent(step) && Files(step) && Gather(ids, step).Some?
    ensures |Gather(ids, step).value.0| == |ids|
    ensures var os := Gather(ids, step).value.0;
      forall i :: 0 <= i < |ids| && os[i].Done? ==> os[i].record.uniprotId == ids[i]
    decreases |ids|
  {
    GatherOutcomes(ids, step);
    if ids != [] {
      var init := ids[..|ids| - 1];
      var id := ids[|ids| - 1];
      GatherRecordIds(init, step);
      var g0 := Gather(init, step).value;
      var r := step(id, g0.1);
      assert FilesAt(step, id, g0.1);
      var os := Gather(ids, step).value.0;
      assert os == g0.0 + [r.0];
      forall i | 0 <= i < |ids| && os[i].Done? ensures os[i].record.uniprotId == ids[i] {
        if i < |init| {
          assert os[i] == g0.0[i] && init[i] == ids[i];
        }
      }
    }
  }

  /** Every id is filed once the gather is done: it finished, or it is under "UniProtID" or "ParseError". */
  lemma {:induction false} GatherAccounts(ids: seq<string>, step: Step)
    requires Independent(step) && Files(step) && Gather(ids, step).Some?
    ensures |Gather(ids, step).value.0| == |ids| && Gather(ids, step).value.1.Keys == BucketNames
    ensures var g := Gather(ids, step).value;
      forall i :: 0 <= i < |ids| ==> g.0[i].Done? || ids[i] in g.1["UniProtID"] || ids[i] in g.1["ParseError"]
    decreases |ids|
  {
    GatherOutcomes(ids, step);
    if ids != [] {
      var init := ids[..|ids| - 1];
      var id := ids[|ids| - 1];
      GatherAccounts(init, step);
      var g0 := Gather(init, step).value;
      var r := step(id, g0.1);
      assert FilesAt(step, id, g0.1);
      var g := Gather(ids, step).value;
      assert g == (g0.0 + [r.0], r.1);
      forall i | 0 <= i < |ids| ensures g.0[i].Done? || ids[i] in g.1["UniProtID"] || ids[i] in g.1["ParseError"] {
        if i < |init| {
          assert g.0[i] == g0.0[i] && ids[i] == init[i];
          if !g0.0[i].Done? {
            assert ids[i] in g0.1["UniProtID"] || ids[i] in g0.1["ParseError"];
            assert r.1["UniProtID"] == g0.1["UniProtID"] || r.1["UniProtID"] == g0.1["UniProtID"] + [id];
            assert r.1["ParseError"] == g0.1["ParseError"] || r.1["ParseError"] == g0.1["ParseError"] + [id];
          }
        } else if !r.0.Done? {
          assert r.1["UniProtID"] == g0.1["UniProtID"] || r.1["UniProtID"] == g0.1["UniProtID"] + [id];
          assert r.1["ParseError"] == g0.1["ParseError"] || r.1["ParseError"] == g0.1["ParseError"] + [id];
          if r.1["UniProtID"] != g0.1["UniProtID"] {
            assert r.1["UniProtID"][|g0.1["UniProtID"]|] == id;
          } else {
            assert r.1["ParseError"] == g0.1["ParseError"] + [id];
            assert r.1["ParseError"][|g0.1["ParseError"]|] == id;
          }
        }
      }
    }
  }

  /** `get_proteins_info` raises exactly when the call for some id raises on its own, and
    * otherwise each id's outcome is the one it has on its own. */
  lemma ProteinsInfoOutcomes(ids: seq<string>, uniprot: Fetch, pdb: Fetch)
    ensures Gathered(ids, uniprot, pdb).None? <==>
      exists i :: 0 <= i < |ids| && Info(ids[i], uniprot(ids[i]), pdb(ids[i]), InitialBuckets).0 == Crashed
    ensures Gathered(ids, uniprot, pdb).Some? ==> |Gathered(ids, uniprot, pdb).value.0| == |ids|
    ensures Gathered(ids, uniprot, pdb).Some? ==>
      forall i :: 0 <= i < |ids| ==>
        Gathered(ids, uniprot, pdb).value.0[i] == Info(ids[i], uniprot(ids[i]), pdb(ids[i]), InitialBuckets).0
  {
    var step := CallFor(uniprot, pdb);
    CallIndependent(uniprot, pdb);
    GatherCrash(ids, step);
    if Gathered(ids, uniprot, pdb).Some? {
      GatherOutcomes(ids, step);
    }
    assert forall i :: 0 <= i < |ids| ==> step(ids[i], InitialBuckets) == Info(ids[i], uniprot(ids[i]), pdb(ids[i]), InitialBuckets);
  }

  /** What `get_proteins_info` returns accounts for every id once: a result carrying that id, or an
    * entry under "UniProtID" or "ParseError"; no bucket holds an id that was not asked for. */
  lemma ProteinsInfoAccounts(ids: seq<string>, uniprot: Fetch, pdb: Fetch)
    requires ProteinsInfo(ids, uniprot, pdb).Some?
    ensures var (results, errors) := ProteinsInfo(ids, uniprot, pdb).value;
      && errors.Keys == BucketNames
      && |results| + |errors["UniProtID"]| + |errors["ParseError"]| == |ids|
      && (forall k, x :: k in errors && x in errors[k] ==> x in ids)
      && (forall r :: r in results ==> r.uniprotId in ids)
      && (forall i :: 0 <= i < |ids| ==>
            (exists j :: 0 <= j < |results| && results[j].uniprotId == ids[i])
            || ids[i] in errors["UniProtID"] || ids[i] in errors["ParseError"])
  {
    var step := CallFor(uniprot, pdb);
    CallIndependent(uniprot, pdb);
    CallFiles(uniprot, pdb);
    GatherCounts(ids, step);
    GatherFilesInput(ids, step);
    GatherRecordIds(ids, step);
    var g := Gather(ids, step).value;
    ValidResultsSpec(g.0);
    forall r | r in ValidResults(g.0) ensures r.uniprotId in ids {
      var i :| 0 <= i < |g.0| && g.0[i] == Done(r);
    }
    EveryIdFiled(ids, uniprot, pdb);
  }

  /** Each accession has a result carrying it, or is under "UniProtID" or "ParseError". */
  lemma EveryIdFiled(ids: seq<string>, uniprot: Fetch, pdb: Fetch)
    requires ProteinsInfo(ids, uniprot, pdb).Some?
    ensures var (results, errors) := ProteinsInfo(ids, uniprot, pdb).value;
      forall i :: 0 <= i < |ids| ==>
        (exists j :: 0 <= j < |results| && results[j].uniprotId == ids[i])
        || ids[i] in errors["UniProtID"] || ids[i] in errors["ParseError"]
  {
    var step := CallFor(uniprot, pdb);
    CallIndependent(uniprot, pdb);
    CallFiles(uniprot, pdb);
    GatherAccounts(ids, step);
    GatherRecordIds(ids, step);
    var g := Gather(ids, step).value;
    var results := ValidResults(g.0);
    ValidResultsOrder(g.0);
    var idx := DoneIndices(g.0);
    forall i | 0 <= i < |ids| && g.0[i].Done?
      ensures exists j :: 0 <= j < |results| && results[j].uniprotId == ids[i]
    {
      var j :| 0 <= j < |idx| && idx[j] == i;
      assert g.0[i] == Done(results[j]);
    }
  }

  /** The results follow the input: the `j`-th is the record of the `j`-th accession that finished,
    * computed for that accession alone, and every accession that finished has one. */
  lemma ProteinsInfoOrder(ids: seq<string>, uniprot: Fetch, pdb: Fetch)
    requires ProteinsInfo(ids, uniprot, pdb).Some?
    ensures var results := ProteinsInfo(ids, uniprot, pdb).value.0;
      var idx := DoneIndices(Gathered(ids, uniprot, pdb).value.0);
      && |idx| == |results|
      && (forall j :: 0 <= j < |idx| ==>
            && idx[j] < |ids|
            && results[j].uniprotId == ids[idx[j]]
            && Info(ids[idx[j]], uniprot(ids[idx[j]]), pdb(ids[idx[j]]), InitialBuckets).0 == Done(results[j]))
      && (forall j, j' :: 0 <= j < j' < |idx| ==> idx[j] < idx[j'])
      && (forall i :: 0 <= i < |ids| && Info(ids[i], uniprot(ids[i]), pdb(ids[i]), InitialBuckets).0.Done? ==> i in idx)
  {
    var step := CallFor(uniprot, pdb);
    ProteinsInfoOutcomes(ids, uniprot, pdb);
    CallIndependent(uniprot, pdb);
    CallFiles(uniprot, pdb);
    GatherRecordIds(ids, step);
    var g := Gather(ids, step).value;
    ValidResultsOrder(g.0);
  }

  // ---------------------------------------------------------------- which ids the buckets hold

  /** Whether `_get_protein_info` files `id` under bucket `k`, judged from the two fetches alone:
    * an entry that is missing or falsy goes under "UniProtID", one that does not parse under
    * "ParseError"; a parsed entry goes under each defaulted field's name, and under "PDB" when
    * the PDB fetch failed. */
  predicate FiledAs(id: string, u: Option<Json>, p: Option<Json>, k: string)
  {
    if u.None? || !Truthy(u.value) then k == "UniProtID"
    else if ParseUniprot(u.value).None? then k == "ParseError"
    else HoldsDefault(ParseUniprot(u.value).value, k) || (k == "PDB" && p.None?)
  }

  /** A call that does not raise appends `id` once to each bucket it is filed under, and nowhere else. */
  lemma InfoFiledAs(id: string, u: Option<Json>, p: Option<Json>, b: Buckets)
    requires HasBuckets(b) && Info(id, u, p, b).0 != Crashed
    ensures forall k :: k in b ==> Info(id, u, p, b).1[k] == b[k] + (if FiledAs(id, u, p, k) then [id] else [])
  {
    InfoSkipped(id, u, p, b);
    if Parsed(u) {
      InfoDone(id, u, p, b);
    }
  }

  /** The accessions of `ids` filed under `k`, in input order. */
  function FiledIds(ids: seq<string>, uniprot: Fetch, pdb: Fetch, k: string): seq<string>
    decreases |ids|
  {
    if ids == [] then []
    else
      var id := ids[|ids| - 1];
      FiledIds(ids[..|ids| - 1], uniprot, pdb, k) + (if FiledAs(id, uniprot(id), pdb(id), k) then [id] else [])
  }

  /** An accession is listed under `k` exactly when it is one of `ids` and is filed under `k`. */
  lemma {:induction false} FiledIdsSpec(ids: seq<string>, uniprot: Fetch, pdb: Fetch, k: string)
    ensures forall x :: x in FiledIds(ids, uniprot, pdb, k) <==> x in ids && FiledAs(x, uniprot(x), pdb(x), k)
    decreases |ids|
  {
    if ids != [] {
      var init := ids[..|ids| - 1];
      FiledIdsSpec(init, uniprot, pdb, k);
      assert forall x :: x in ids <==> x in init || x == ids[|ids| - 1];
    }
  }

  /** After a gather that does not raise, each bucket lists the accessions filed under it, in input order. */
  lemma {:induction false} GatherBuckets(ids: seq<string>, uniprot: Fetch, pdb: Fetch)
    requires Gather(ids, CallFor(uniprot, pdb)).Some?
    ensures Gather(ids, CallFor(uniprot, pdb)).value.1.Keys == BucketNames
    ensures forall k :: k in BucketNames ==> Gather(ids, CallFor(uniprot, pdb)).value.1[k] == FiledIds(ids, uniprot, pdb, k)
    decreases |ids|
  {
    var step := CallFor(uniprot, pdb);
    if ids == [] {
      assert InitialBuckets.Keys == BucketNames;
    } else {
      var init := ids[..|ids| - 1];
      var id := ids[|ids| - 1];
      GatherBuckets(init, uniprot, pdb);
      var g0 := Gather(init, step).value;
      var r := Info(id, uniprot(id), pdb(id), g0.1);
      assert step(id, g0.1) == r;
      assert Gather(ids, step).value == (g0.0 + [r.0], r.1);
      InfoFiledAs(id, uniprot(id), pdb(id), g0.1);
    }
  }

  /** The returned registry: each bucket lists, in input order, exactly the accessions filed under it.
    * In particular an accession whose entry could not be fetched is under "UniProtID", and one whose
    * entry parsed but whose PDB fetch failed is under "PDB". */
  lemma ProteinsInfoBuckets(ids: seq<string>, uniprot: Fetch, pdb: Fetch)
    requires ProteinsInfo(ids, uniprot, pdb).Some?
    ensures var errors := ProteinsInfo(ids, uniprot, pdb).value.1;
      && errors.Keys == BucketNames
      && (forall k :: k in BucketNames ==> errors[k] == FiledIds(ids, uniprot, pdb, k))
      && (forall k, x :: k in BucketNames ==> (x in errors[k] <==> x in ids && FiledAs(x, uniprot(x), pdb(x), k)))
      && (forall x :: x in ids && (uniprot(x).None? || !Truthy(uniprot(x).value)) ==> x in errors["UniProtID"])
      && (forall x :: x in ids && Parsed(uniprot(x)) && pdb(x).None? ==> x in errors["PDB"])
  {
    GatherBuckets(ids, uniprot, pdb);
    forall k | k in BucketNames {
      FiledIdsSpec(ids, uniprot, pdb, k);
    }
  }
}
