/**
 * Gene symbol to UniProt accession resolution with retry passes
 * (BioTools/gene2uniprot.py). The remote gene-query service is an oracle from a pass number
 * and a gene name to the decoded response; one pass is an order-preserving map over the
 * queried names; `gene2uniprotid` re-queries only the names a pass left unresolved.
 */
module Gene2Uniprot {
  import opened Wrappers
  import opened PyJson

  /** The exceptions that escape `gene2uniprotid`. */
  datatype Raise =
    | ValueError     // cycles < 1
    | IndexError     // the chosen UID is an empty list: `UID[0]` sits outside the try
    | RequestFailed  // the GET or the JSON decoding in `_async_query` raised; nothing catches it

  /** What one GET to the gene-query service produced. */
  datatype Response = Body(json: Json) | RequestError

  /** The remote service: the answer to the query for a gene during a given pass. */
  type Query = (nat, string) -> Response

  /** The outcome of one query, in submission order, as `asyncio.gather` returns it. */
  type Outcome = (string, Option<Json>)

  /** `m.get(key)`: Python's None (JSON null) for a missing key. */
  function Field(m: map<string, Json>, key: string): Json
  {
    if key in m then m[key] else JNull
  }

  /** The dict `res['hits'][0]['uniprot']`, or None when any step of that lookup raises. */
  function FirstHitUniprot(res: Json): Option<map<string, Json>>
  {
    if res.JObj? && "hits" in res.fields && res.fields["hits"].JArr?
      && |res.fields["hits"].items| > 0 && res.fields["hits"].items[0].JObj?
      && "uniprot" in res.fields["hits"].items[0].fields
      && res.fields["hits"].items[0].fields["uniprot"].JObj?
    then Some(res.fields["hits"].items[0].fields["uniprot"].fields)
    else None
  }

  /** `_find_UID`: Swiss-Prot of the first hit, else TrEMBL; a list value yields its first element. */
  function FindUid(res: Json): (r: Result<Option<Json>, Raise>)
    ensures r.Failure? ==> r.error == IndexError
    ensures r.Success? && r.value.Some? ==> r.value.value != JNull
  {
    // the try block: any failing lookup leaves UID = None
    var uid :=
      match FirstHitUniprot(res)
      case None => JNull
      case Some(u) => if Field(u, "Swiss-Prot") != JNull then Field(u, "Swiss-Prot") else Field(u, "TrEMBL");
    if uid.JArr? then
      if uid.items == [] then Failure(IndexError) else Success(NoneIfNull(uid.items[0]))
    else Success(NoneIfNull(uid))
  }

  /**
   * What `_find_UID` picks: nothing when `hits[0].uniprot` cannot be reached, the Swiss-Prot
   * accession when there is one, otherwise the TrEMBL one; the first element of a list, and
   * IndexError for an empty list.
   */
  lemma FindUidChoice(res: Json)
    ensures FirstHitUniprot(res).None? ==> FindUid(res) == Success(None)
    ensures FirstHitUniprot(res).Some? ==>
      var u := FirstHitUniprot(res).value;
      && (Field(u, "Swiss-Prot").JStr? ==> FindUid(res) == Success(Some(Field(u, "Swiss-Prot"))))
      && (Field(u, "Swiss-Prot") == JNull && Field(u, "TrEMBL").JStr? ==> FindUid(res) == Success(Some(Field(u, "TrEMBL"))))
      && (Field(u, "Swiss-Prot") == JNull && Field(u, "TrEMBL") == JNull ==> FindUid(res) == Success(None))
      && (Field(u, "Swiss-Prot") == JArr([]) ==> FindUid(res) == Failure(IndexError))
      && (Field(u, "Swiss-Prot") == JNull && Field(u, "TrEMBL") == JArr([]) ==> FindUid(res) == Failure(IndexError))
      && (Field(u, "Swiss-Prot").JArr? && Field(u, "Swiss-Prot").items != [] && Field(u, "Swiss-Prot").items[0].JStr?
          ==> FindUid(res) == Success(Some(Field(u, "Swiss-Prot").items[0])))
      && (Field(u, "Swiss-Prot") == JNull && Field(u, "TrEMBL").JArr? && Field(u, "TrEMBL").items != []
          && Field(u, "TrEMBL").items[0].JStr?
          ==> FindUid(res) == Success(Some(Field(u, "TrEMBL").items[0])))
  {
  }

  /** One `_async_query`: the response for `gene` in this pass, then `_find_UID`. */
  function QueryGene(query: Query, pass: nat, gene: string): Result<Option<Json>, Raise>
  {
    match query(pass, gene)
    case RequestError => Failure(RequestFailed)
    case Body(j) => FindUid(j)
  }

  /**
   * `asyncio.gather` over one pass: outcomes in submission order, or the exception a query
   * raised (the one earliest in submission order stands for whichever surfaces first).
   */
  function Gather(query: Query, pass: nat, genes: seq<string>): Result<seq<Outcome>, Raise>
    decreases |genes|
  {
    if genes == [] then Success([])
    else
      match QueryGene(query, pass, genes[0])
      case Failure(e) => Failure(e)
      case Success(v) =>
        match Gather(query, pass, genes[1..])
        case Failure(e) => Failure(e)
        case Success(rest) => Success([(genes[0], v)] + rest)
  }

  /** `gather` raises exactly when some query raises; otherwise it pairs each name with its outcome, in order. */
  lemma {:induction false} GatherInOrder(query: Query, pass: nat, genes: seq<string>)
    ensures Gather(query, pass, genes).Success? <==> forall i :: 0 <= i < |genes| ==> QueryGene(query, pass, genes[i]).Success?
    ensures Gather(query, pass, genes).Success? ==>
      var rs := Gather(query, pass, genes).value;
      && |rs| == |genes|
      && forall i :: 0 <= i < |genes| ==> rs[i] == (genes[i], QueryGene(query, pass, genes[i]).value)
    decreases |genes|
  {
    if genes != [] {
      GatherInOrder(query, pass, genes[1..]);
      assert forall i :: 1 <= i < |genes| ==> genes[1..][i - 1] == genes[i];
      if !QueryGene(query, pass, genes[0]).Success? {
        assert !(forall i :: 0 <= i < |genes| ==> QueryGene(query, pass, genes[i]).Success?);
      }
    }
  }

  /**
   * The two comprehensions of `_async_request`: the names with a UID as a dict (a later
   * entry wins on a repeated name) and the names without one as a list, in order.
   */
  function Partition(rs: seq<Outcome>): (p: (map<string, Json>, seq<string>))
    decreases |rs|
  {
    if rs == [] then (map[], [])
    else
      var prev := Partition(rs[..|rs| - 1]);
      var last := rs[|rs| - 1];
      if last.1.Some? then (prev.0[last.0 := last.1.value], prev.1) else (prev.0, prev.1 + [last.0])
  }

  /** How many outcomes carry no UID: the reference count for the error list. */
  function CountUnresolved(rs: seq<Outcome>): nat
    decreases |rs|
  {
    if rs == [] then 0 else CountUnresolved(rs[..|rs| - 1]) + (if rs[|rs| - 1].1.None? then 1 else 0)
  }

  lemma {:induction false} CountUnresolvedPrefix(rs: seq<Outcome>, i: nat)
    requires i < |rs| && rs[i].1.None?
    ensures CountUnresolved(rs[..i]) < CountUnresolved(rs)
    decreases |rs|
  {
    var init := rs[..|rs| - 1];
    if i < |rs| - 1 {
      assert init[..i] == rs[..i];
      CountUnresolvedPrefix(init, i);
    } else {
      assert init == rs[..i];
    }
  }

  /** One pass partitions its outcomes: resolved names become keys, the rest an ordered error list. */
  lemma {:induction false} PartitionSpec(rs: seq<Outcome>)
    ensures forall g :: g in Partition(rs).0 <==> exists i :: 0 <= i < |rs| && rs[i].0 == g && rs[i].1.Some?
    ensures forall g :: g in Partition(rs).0 ==> exists i :: 0 <= i < |rs| && rs[i] == (g, Some(Partition(rs).0[g]))
    ensures forall g :: g in Partition(rs).1 <==> exists i :: 0 <= i < |rs| && rs[i].0 == g && rs[i].1.None?
    ensures |Partition(rs).1| == CountUnresolved(rs)
    ensures forall i :: 0 <= i < |rs| && rs[i].1.None? ==>
      CountUnresolved(rs[..i]) < |Partition(rs).1| && Partition(rs).1[CountUnresolved(rs[..i])] == rs[i].0
    decreases |rs|
  {
    if rs != [] {
      var init := rs[..|rs| - 1];
      var last := rs[|rs| - 1];
      PartitionSpec(init);
      var p, q := Partition(rs), Partition(init);
      forall g | g in p.0 ensures exists i :: 0 <= i < |rs| && rs[i] == (g, Some(p.0[g])) {
        if last.1.Some? && g == last.0 {
          assert rs[|rs| - 1] == (g, Some(p.0[g]));
        } else {
          var i :| 0 <= i < |init| && init[i] == (g, Some(q.0[g]));
          assert rs[i] == (g, Some(p.0[g]));
        }
      }
      forall g ensures g in p.0 <==> exists i :: 0 <= i < |rs| && rs[i].0 == g && rs[i].1.Some? {
        if exists i :: 0 <= i < |rs| && rs[i].0 == g && rs[i].1.Some? {
          var i :| 0 <= i < |rs| && rs[i].0 == g && rs[i].1.Some?;
          if i < |init| { assert init[i] == rs[i]; }
        }
      }
      forall g ensures g in p.1 <==> exists i :: 0 <= i < |rs| && rs[i].0 == g && rs[i].1.None? {
        if g in p.1 {
          if g in q.1 {
            var i :| 0 <= i < |init| && init[i].0 == g && init[i].1.None?;
            assert rs[i] == init[i];
          } else {
            assert rs[|rs| - 1].0 == g && rs[|rs| - 1].1.None?;
          }
        }
        if exists i :: 0 <= i < |rs| && rs[i].0 == g && rs[i].1.None? {
          var i :| 0 <= i < |rs| && rs[i].0 == g && rs[i].1.None?;
          if i < |init| { assert init[i] == rs[i]; }
        }
      }
      forall i | 0 <= i < |rs| && rs[i].1.None?
        ensures CountUnresolved(rs[..i]) < |p.1| && p.1[CountUnresolved(rs[..i])] == rs[i].0
      {
        CountUnresolvedPrefix(rs, i);
        if i < |init| {
          assert init[..i] == rs[..i];
          assert init[i] == rs[i];
        } else {
          assert init == rs[..i];
        }
      }
    }
  }

  /** `_async_request`: one pass over `genes`, as the map of resolved names and the error list. */
  function AsyncRequest(query: Query, pass: nat, genes: seq<string>): Result<(map<string, Json>, seq<string>), Raise>
  {
    match Gather(query, pass, genes)
    case Failure(e) => Failure(e)
    case Success(rs) => Success(Partition(rs))
  }

  /** The name got a UID in this pass. */
  predicate ResolvedIn(query: Query, pass: nat, g: string)
  {
    QueryGene(query, pass, g).Success? && QueryGene(query, pass, g).value.Some?
  }

  /**
   * One pass partitions the queried names: resolved names are the keys, with the value the
   * query gave, the others are the error list; no name is in both and every name in one.
   */
  lemma PassPartitions(query: Query, pass: nat, genes: seq<string>)
    requires AsyncRequest(query, pass, genes).Success?
    ensures var (m, e) := AsyncRequest(query, pass, genes).value;
      && (forall g :: g in m <==> g in genes && ResolvedIn(query, pass, g))
      && (forall g :: g in m ==> QueryGene(query, pass, g) == Success(Some(m[g])))
      && (forall g :: g in e <==> g in genes && !ResolvedIn(query, pass, g))
      && (forall g :: g in genes ==> (g in m <==> g !in e))
  {
    GatherInOrder(query, pass, genes);
    var rs := Gather(query, pass, genes).value;
    PartitionSpec(rs);
    var (m, e) := Partition(rs);
    forall g ensures g in m <==> g in genes && ResolvedIn(query, pass, g) {
      if g in genes && ResolvedIn(query, pass, g) {
        var i :| 0 <= i < |genes| && genes[i] == g;
        assert rs[i].0 == g && rs[i].1.Some?;
      }
    }
    forall g ensures g in e <==> g in genes && !ResolvedIn(query, pass, g) {
      if g in genes && !ResolvedIn(query, pass, g) {
        var i :| 0 <= i < |genes| && genes[i] == g;
        assert rs[i].0 == g && rs[i].1.None?;
      }
    }
  }

  /** One pass as the retry loop sees it: from the pass number and the batch to the pass's map and error list. */
  type Pass = (nat, seq<string>) -> Result<(map<string, Json>, seq<string>), Raise>

  /** The passes `gene2uniprotid` makes: `_async_request` on the service. */
  function Passes(query: Query): Pass
  {
    (pass: nat, genes: seq<string>) => AsyncRequest(query, pass, genes)
  }

  /** What `gene2uniprotid` returns, or raises, with the batches of names it sent. */
  datatype Run = Run(result: Result<(map<string, Json>, seq<string>), Raise>, issued: seq<seq<string>>)

  /** A run preceded by batches already sent. */
  function Join(before: seq<seq<string>>, run: Run): Run
  {
    Run(run.result, before + run.issued)
  }

  lemma JoinJoin(a: seq<seq<string>>, b: seq<seq<string>>, run: Run)
    ensures Join(a, Join(b, run)) == Join(a + b, run)
  {
    assert a + (b + run.issued) == (a + b) + run.issued;
  }

  /** The retry loop from pass `pass` on, with `left` iterations of `range(cycles - 1)` still to go. */
  function Retry(send: Pass, pass: nat, left: nat, resolved: map<string, Json>, errors: seq<string>): Run
    decreases left
  {
    if left == 0 || errors == [] then Run(Success((resolved, errors)), [])
    else
      var next := send(pass, errors);
      if next.Failure? then Run(Failure(next.error), [errors])
      else
        Join([errors], Retry(send, pass + 1, left - 1, resolved + next.value.0, next.value.1))
  }

  /** One iteration of the retry loop that sends a batch. */
  lemma RetryStep(send: Pass, pass: nat, left: nat, resolved: map<string, Json>, errors: seq<string>)
    requires left > 0 && errors != []
    ensures var next := send(pass, errors);
      Retry(send, pass, left, resolved, errors) ==
        if next.Failure? then Run(Failure(next.error), [errors])
        else Join([errors], Retry(send, pass + 1, left - 1, resolved + next.value.0, next.value.1))
  {
  }

  /** `gene2uniprotid` as a function of its inputs and the service. */
  function Resolve(genes: seq<string>, cycles: int, send: Pass): Run
  {
    if cycles < 1 then Run(Failure(ValueError), [])
    else
      var first := send(0, genes);
      if first.Failure? then Run(Failure(first.error), [genes])
      else
        Join([genes], Retry(send, 1, cycles - 1, first.value.0, first.value.1))
  }

  lemma ResolveStart(genes: seq<string>, cycles: int, send: Pass)
    requires cycles >= 1 && send(0, genes).Success?
    ensures var first := send(0, genes).value;
      Resolve(genes, cycles, send) == Join([genes], Retry(send, 1, cycles - 1, first.0, first.1))
  {
  }

  /**
   * `gene2uniprotid`: a first pass over every name, then up to `cycles - 1` passes over the
   * names still unresolved, merging each pass's map into the running one; `issued` lists the
   * batches sent, pass by pass. The cooldown sleep and the printed summary are left out.
   */
  method Gene2UniprotId(genes: seq<string>, query: Query, cycles: int := 2)
    returns (r: Result<(map<string, Json>, seq<string>), Raise>, issued: seq<seq<string>>)
    ensures Run(r, issued) == Resolve(genes, cycles, Passes(query))
    ensures cycles < 1 ==> r == Failure(ValueError) && issued == []
  {
    if cycles < 1 {
      return Failure(ValueError), [];
    }
    var first := AsyncRequest(query, 0, genes);
    if first.Failure? {
      return Failure(first.error), [genes];
    }
    ResolveStart(genes, cycles, Passes(query));
    var later;
    r, later := RetryPasses(query, cycles - 1, first.value.0, first.value.1);
    issued := [genes] + later;
  }

  /**
   * The `for i in range(left)` loop of `gene2uniprotid`: while names remain unresolved, query
   * them again (pass `i + 1`) and merge the new map into the old one; stop early otherwise.
   */
  method RetryPasses(query: Query, left: nat, resolved0: map<string, Json>, errors0: seq<string>)
    returns (r: Result<(map<string, Json>, seq<string>), Raise>, issued: seq<seq<string>>)
    ensures Run(r, issued) == Retry(Passes(query), 1, left, resolved0, errors0)
  {
    var resolved, errors := resolved0, errors0;
    issued := [];
    var i := 0;
    var pass, rest := 1, left;
    while i < left
      invariant 0 <= i <= left && pass == i + 1 && rest == left - i
      invariant Retry(Passes(query), 1, left, resolved0, errors0) == Join(issued, Retry(Passes(query), pass, rest, resolved, errors))
    {
      if |errors| > 0 {
        var next := AsyncRequest(query, pass, errors);
        if next.Failure? {
          RetryStep(Passes(query), pass, rest, resolved, errors);
          return Failure(next.error), issued + [errors];
        }
        RetryAdvance(Passes(query), pass, rest, resolved, errors, issued);
        issued := issued + [errors];
        resolved := resolved + next.value.0;
        errors := next.value.1;
      } else {
        break;
      }
      i, pass, rest := i + 1, pass + 1, rest - 1;
    }
    assert issued + [] == issued;
    r := Success((resolved, errors));
  }

  /** A pass that succeeds moves its batch from the loop still to run to the batches already sent. */
  lemma RetryAdvance(send: Pass, pass: nat, left: nat, resolved: map<string, Json>, errors: seq<string>, issued: seq<seq<string>>)
    requires left > 0 && errors != [] && send(pass, errors).Success?
    ensures var (m, e) := send(pass, errors).value;
      Join(issued, Retry(send, pass, left, resolved, errors)) == Join(issued + [errors], Retry(send, pass + 1, left - 1, resolved + m, e))
  {
    var (m, e) := send(pass, errors).value;
    RetryStep(send, pass, left, resolved, errors);
    JoinJoin(issued, [errors], Retry(send, pass + 1, left - 1, resolved + m, e));
  }
}

/** What the retry loop of `gene2uniprotid` guarantees about its passes and its result. */
module Gene2UniprotFacts {
  import opened Wrappers
  import opened PyJson
  import opened Gene2Uniprot

  /** Every input name is in exactly one of the map's keys and the error list, and nothing else is. */
  predicate Covers(genes: seq<string>, m: map<string, Json>, e: seq<string>)
  {
    && (forall g :: g in m ==> g in genes)
    && (forall g :: g in e ==> g in genes)
    && (forall g :: g in genes ==> (g in m <==> g !in e))
  }

  /** Every name of `b` is one of `a`'s. */
  predicate Within(b: seq<string>, a: seq<string>)
  {
    forall g :: g in b ==> g in a
  }

  /** A run of the loop that sends a batch: that batch first, then the run of the rest of the loop. */
  lemma RetryUnfold(send: Pass, pass: nat, left: nat, resolved: map<string, Json>, errors: seq<string>)
    requires left > 0 && errors != [] && send(pass, errors).Success?
    ensures var (m, e) := send(pass, errors).value;
      var rest := Retry(send, pass + 1, left - 1, resolved + m, e);
      Retry(send, pass, left, resolved, errors) == Run(rest.result, [errors] + rest.issued)
  {
  }

  /** The batches the retry loop sends: at most `left`, none empty, the first the current error list. */
  lemma {:induction false} RetryBatchesShape(send: Pass, pass: nat, left: nat, resolved: map<string, Json>, errors: seq<string>)
    ensures var run := Retry(send, pass, left, resolved, errors);
      && |run.issued| <= left
      && (forall k :: 0 <= k < |run.issued| ==> run.issued[k] != [])
      && (run.issued != [] ==> run.issued[0] == errors)
    decreases left
  {
    if left > 0 && errors != [] && send(pass, errors).Success? {
      var (m, e) := send(pass, errors).value;
      RetryUnfold(send, pass, left, resolved, errors);
      RetryBatchesShape(send, pass + 1, left - 1, resolved + m, e);
    }
  }

  /** Batch `k + 1` of the loop is the error list of pass `pass + k`, which succeeded. */
  lemma {:induction false} RetryBatchAt(send: Pass, pass: nat, left: nat, resolved: map<string, Json>, errors: seq<string>, k: nat)
    requires k + 1 < |Retry(send, pass, left, resolved, errors).issued|
    ensures var run := Retry(send, pass, left, resolved, errors);
      send(pass + k, run.issued[k]).Success?
      && run.issued[k + 1] == send(pass + k, run.issued[k]).value.1
    decreases left
  {
    var next := send(pass, errors).value;
    var rest := Retry(send, pass + 1, left - 1, resolved + next.0, next.1);
    var run := Retry(send, pass, left, resolved, errors);
    RetryUnfold(send, pass, left, resolved, errors);
    assert run.issued == [errors] + rest.issued;
    assert run.issued[k + 1] == rest.issued[k];
    if k == 0 {
      RetryBatchesShape(send, pass + 1, left - 1, resolved + next.0, next.1);
      assert run.issued[0] == errors && run.issued[1] == next.1;
    } else {
      var p, b := pass + k, rest.issued[k - 1];
      assert p == (pass + 1) + (k - 1);
      RetryBatchAt(send, pass + 1, left - 1, resolved + next.0, next.1, k - 1);
      assert send(p, b).Success? && rest.issued[k] == send(p, b).value.1;
      assert run.issued[k] == b;
    }
  }

  /** The batches the retry loop sends: at most `left`, none empty, each the previous pass's error list. */
  lemma RetryBatches(send: Pass, pass: nat, left: nat, resolved: map<string, Json>, errors: seq<string>)
    ensures var run := Retry(send, pass, left, resolved, errors);
      && |run.issued| <= left
      && (forall k :: 0 <= k < |run.issued| ==> run.issued[k] != [])
      && (run.issued != [] ==> run.issued[0] == errors)
      && (forall k :: 0 <= k < |run.issued| - 1 ==>
            send(pass + k, run.issued[k]).Success?
            && run.issued[k + 1] == send(pass + k, run.issued[k]).value.1)
  {
    RetryBatchesShape(send, pass, left, resolved, errors);
    var run := Retry(send, pass, left, resolved, errors);
    forall k | 0 <= k < |run.issued| - 1
      ensures send(pass + k, run.issued[k]).Success?
        && run.issued[k + 1] == send(pass + k, run.issued[k]).value.1
    {
      RetryBatchAt(send, pass, left, resolved, errors, k);
    }
  }

  /** With no batch sent the loop returns what it was given; its error list is empty unless every iteration ran. */
  lemma {:induction false} RetryResultEnds(send: Pass, pass: nat, left: nat, resolved: map<string, Json>, errors: seq<string>)
    ensures var run := Retry(send, pass, left, resolved, errors);
      && (run.result.Success? && run.issued == [] ==> run.result.value == (resolved, errors))
      && (run.result.Success? ==> run.result.value.1 == [] || |run.issued| == left)
    decreases left
  {
    if left > 0 && errors != [] && send(pass, errors).Success? {
      var (m, e) := send(pass, errors).value;
      RetryUnfold(send, pass, left, resolved, errors);
      RetryResultEnds(send, pass + 1, left - 1, resolved + m, e);
    }
  }

  /** The loop returns the error list of its last pass. */
  lemma {:induction false} RetryResultLast(send: Pass, pass: nat, left: nat, resolved: map<string, Json>, errors: seq<string>)
    requires Retry(send, pass, left, resolved, errors).result.Success?
    requires Retry(send, pass, left, resolved, errors).issued != []
    ensures var run := Retry(send, pass, left, resolved, errors);
      var last := |run.issued| - 1;
      send(pass + last, run.issued[last]).Success?
      && run.result.value.1 == send(pass + last, run.issued[last]).value.1
    decreases left
  {
    var (m, e) := send(pass, errors).value;
    var rest := Retry(send, pass + 1, left - 1, resolved + m, e);
    RetryUnfold(send, pass, left, resolved, errors);
    if rest.issued == [] {
      RetryResultEnds(send, pass + 1, left - 1, resolved + m, e);
    } else {
      RetryResultLast(send, pass + 1, left - 1, resolved + m, e);
      var last := |rest.issued|;
      assert pass + last == (pass + 1) + (last - 1);
    }
  }

  /** The loop returns the error list of its last pass, which is empty unless every iteration ran. */
  lemma RetryResult(send: Pass, pass: nat, left: nat, resolved: map<string, Json>, errors: seq<string>)
    ensures var run := Retry(send, pass, left, resolved, errors);
      && (run.result.Success? && run.issued == [] ==> run.result.value == (resolved, errors))
      && (run.result.Success? && run.issued != [] ==>
            var last := |run.issued| - 1;
            send(pass + last, run.issued[last]).Success?
            && run.result.value.1 == send(pass + last, run.issued[last]).value.1)
      && (run.result.Success? ==> run.result.value.1 == [] || |run.issued| == left)
  {
    RetryResultEnds(send, pass, left, resolved, errors);
    var run := Retry(send, pass, left, resolved, errors);
    if run.result.Success? && run.issued != [] {
      RetryResultLast(send, pass, left, resolved, errors);
    }
  }

  /** Every pass that succeeds splits its batch between the map's keys and the error list. */
  ghost predicate Splits(send: Pass)
  {
    forall pass: nat, genes: seq<string> :: send(pass, genes).Success? ==>
      Covers(genes, send(pass, genes).value.0, send(pass, genes).value.1)
  }

  /** `_async_request` splits every batch it is given. */
  lemma PassesSplit(query: Query)
    ensures Splits(Passes(query))
  {
    forall pass: nat, genes: seq<string> | Passes(query)(pass, genes).Success?
      ensures Covers(genes, Passes(query)(pass, genes).value.0, Passes(query)(pass, genes).value.1)
    {
      PassPartitions(query, pass, genes);
    }
  }

  /** A pass keeps the partition of the input names between the map and the error list. */
  lemma PassKeepsCover(genes: seq<string>, resolved: map<string, Json>, errors: seq<string>, m: map<string, Json>, e: seq<string>)
    requires Covers(genes, resolved, errors) && Covers(errors, m, e)
    ensures Covers(genes, resolved + m, e)
  {
  }

  lemma {:induction false} RetryCovers(send: Pass, pass: nat, left: nat, genes: seq<string>, resolved: map<string, Json>, errors: seq<string>)
    requires Splits(send) && Covers(genes, resolved, errors)
    ensures var run := Retry(send, pass, left, resolved, errors);
      run.result.Success? ==> Covers(genes, run.result.value.0, run.result.value.1)
    decreases left
  {
    if left > 0 && errors != [] {
      var next := send(pass, errors);
      if next.Success? {
        PassKeepsCover(genes, resolved, errors, next.value.0, next.value.1);
        RetryCovers(send, pass + 1, left - 1, genes, resolved + next.value.0, next.value.1);
      }
    }
  }

  /** Later passes only add names that were still unresolved, so earlier entries survive unchanged. */
  lemma {:induction false} RetryKeeps(send: Pass, pass: nat, left: nat, resolved: map<string, Json>, errors: seq<string>)
    requires Splits(send)
    ensures var run := Retry(send, pass, left, resolved, errors);
      run.result.Success? ==>
        && (forall g :: g in resolved && g !in errors ==> g in run.result.value.0 && run.result.value.0[g] == resolved[g])
        && (forall g :: g in run.result.value.0 ==> g in resolved || g in errors)
    decreases left
  {
    if left > 0 && errors != [] {
      var next := send(pass, errors);
      if next.Success? {
        assert Covers(errors, next.value.0, next.value.1);
        RetryKeeps(send, pass + 1, left - 1, resolved + next.value.0, next.value.1);
      }
    }
  }

  /** The entries of the loop's first pass are in the final map with that pass's values. */
  lemma RetryMergeHead(send: Pass, pass: nat, left: nat, resolved: map<string, Json>, errors: seq<string>)
    requires Splits(send)
    requires left > 0 && errors != [] && send(pass, errors).Success?
    requires Retry(send, pass, left, resolved, errors).result.Success?
    ensures var m := send(pass, errors).value.0;
      var final := Retry(send, pass, left, resolved, errors).result.value.0;
      forall g :: g in m ==> g in final && final[g] == m[g]
  {
    var (m, e) := send(pass, errors).value;
    assert Covers(errors, m, e);
    RetryKeeps(send, pass + 1, left - 1, resolved + m, e);
    assert Retry(send, pass, left, resolved, errors).result == Retry(send, pass + 1, left - 1, resolved + m, e).result;
  }

  /** An entry that pass `pass + k` resolves is in the final map with the value it found there. */
  lemma {:induction false} RetryMergeAt(send: Pass, pass: nat, left: nat, resolved: map<string, Json>, errors: seq<string>, k: nat, g: string)
    requires Splits(send)
    requires Retry(send, pass, left, resolved, errors).result.Success?
    requires k < |Retry(send, pass, left, resolved, errors).issued|
    requires send(pass + k, Retry(send, pass, left, resolved, errors).issued[k]).Success?
    requires g in send(pass + k, Retry(send, pass, left, resolved, errors).issued[k]).value.0
    ensures var final := Retry(send, pass, left, resolved, errors).result.value.0;
      g in final && final[g] == send(pass + k, Retry(send, pass, left, resolved, errors).issued[k]).value.0[g]
    decreases left
  {
    var run := Retry(send, pass, left, resolved, errors);
    var next := send(pass, errors);
    var (m, e) := next.value;
    var rest := Retry(send, pass + 1, left - 1, resolved + m, e);
    assert run.issued == [errors] + rest.issued && run.result == rest.result;
    if k == 0 {
      RetryMergeHead(send, pass, left, resolved, errors);
    } else {
      assert run.issued[k] == rest.issued[k - 1];
      assert pass + k == (pass + 1) + (k - 1);
      RetryMergeAt(send, pass + 1, left - 1, resolved + m, e, k - 1, g);
    }
  }

  /** `cycles < 1` raises ValueError and no query is sent. */
  lemma RejectsCycles(genes: seq<string>, cycles: int, send: Pass)
    requires cycles < 1
    ensures Resolve(genes, cycles, send) == Run(Failure(ValueError), [])
  {
  }

  /** The batches of a run: the first is every name, each later one the previous pass's error list. */
  lemma ResolveChain(genes: seq<string>, cycles: int, send: Pass)
    requires cycles >= 1
    ensures var run := Resolve(genes, cycles, send);
      && 1 <= |run.issued| <= cycles
      && run.issued[0] == genes
      && (forall k :: 0 < k < |run.issued| ==> run.issued[k] != [])
      && (forall k :: 0 <= k < |run.issued| - 1 ==>
            send(k, run.issued[k]).Success?
            && run.issued[k + 1] == send(k, run.issued[k]).value.1)
  {
    var run := Resolve(genes, cycles, send);
    var first := send(0, genes);
    if first.Success? {
      var rest := Retry(send, 1, cycles - 1, first.value.0, first.value.1);
      RetryBatches(send, 1, cycles - 1, first.value.0, first.value.1);
      assert run.issued == [genes] + rest.issued;
      forall k | 0 <= k < |run.issued| - 1
        ensures send(k, run.issued[k]).Success?
          && run.issued[k + 1] == send(k, run.issued[k]).value.1
      {
        if k > 0 {
          assert run.issued[k] == rest.issued[k - 1];
          assert k == 1 + (k - 1);
        }
      }
    }
  }

  /**
   * At most `cycles` passes; the first sends every name, pass `k + 1` sends exactly the error
   * list of pass `k` (a part of what pass `k` sent), no empty batch is sent, and the returned
   * error list is the last pass's, empty unless every pass was used.
   */
  lemma ResolvePasses(genes: seq<string>, cycles: int, send: Pass)
    requires Splits(send)
    requires cycles >= 1
    ensures var run := Resolve(genes, cycles, send);
      && 1 <= |run.issued| <= cycles
      && run.issued[0] == genes
      && (forall k :: 0 < k < |run.issued| ==> run.issued[k] != [])
      && (forall k :: 0 <= k < |run.issued| - 1 ==>
            send(k, run.issued[k]).Success?
            && run.issued[k + 1] == send(k, run.issued[k]).value.1)
      && (forall k :: 0 <= k < |run.issued| - 1 ==> Within(run.issued[k + 1], run.issued[k]))
      && (run.result.Success? ==>
            var last := |run.issued| - 1;
            send(last, run.issued[last]).Success?
            && run.result.value.1 == send(last, run.issued[last]).value.1
            && (run.result.value.1 == [] || |run.issued| == cycles))
  {
    var run := Resolve(genes, cycles, send);
    var first := send(0, genes);
    if first.Success? {
      var rest := Retry(send, 1, cycles - 1, first.value.0, first.value.1);
      ResolveChain(genes, cycles, send);
      RetryResult(send, 1, cycles - 1, first.value.0, first.value.1);
      assert run.issued == [genes] + rest.issued;
      forall k | 0 <= k < |run.issued| - 1 ensures Within(run.issued[k + 1], run.issued[k]) {
        assert Covers(run.issued[k], send(k, run.issued[k]).value.0, send(k, run.issued[k]).value.1);
      }
      if run.result.Success? && rest.issued != [] {
        var last := |run.issued| - 1;
        assert run.issued[last] == rest.issued[last - 1];
        assert last == 1 + (last - 1);
      }
    }
  }

  /** The returned error list and the map's keys are disjoint, and every input name is in exactly one of them. */
  lemma ResolveCovers(genes: seq<string>, cycles: int, send: Pass)
    requires Splits(send)
    requires Resolve(genes, cycles, send).result.Success?
    ensures var (m, e) := Resolve(genes, cycles, send).result.value;
      Covers(genes, m, e)
  {
    var first := send(0, genes).value;
    RetryCovers(send, 1, cycles - 1, genes, first.0, first.1);
  }

  /** The first pass's entries are in the returned map with that pass's values. */
  lemma ResolveMergeHead(genes: seq<string>, cycles: int, send: Pass)
    requires Splits(send)
    requires Resolve(genes, cycles, send).result.Success?
    ensures var m := send(0, genes).value.0;
      var final := Resolve(genes, cycles, send).result.value.0;
      forall g :: g in m ==> g in final && final[g] == m[g]
  {
    var (m, e) := send(0, genes).value;
    RetryKeeps(send, 1, cycles - 1, m, e);
    assert Resolve(genes, cycles, send).result == Retry(send, 1, cycles - 1, m, e).result;
  }

  /** Merging across passes loses nothing: every entry any pass resolved is in the map with that pass's value. */
  lemma ResolveMerge(genes: seq<string>, cycles: int, send: Pass)
    requires Splits(send)
    requires Resolve(genes, cycles, send).result.Success?
    ensures var run := Resolve(genes, cycles, send);
      forall k, g :: 0 <= k < |run.issued| && send(k, run.issued[k]).Success?
        && g in send(k, run.issued[k]).value.0
        ==> g in run.result.value.0 && run.result.value.0[g] == send(k, run.issued[k]).value.0[g]
  {
    var run := Resolve(genes, cycles, send);
    var first := send(0, genes).value;
    var rest := Retry(send, 1, cycles - 1, first.0, first.1);
    assert run.issued == [genes] + rest.issued && run.result == rest.result;
    forall k, g | 0 <= k < |run.issued| && send(k, run.issued[k]).Success?
      && g in send(k, run.issued[k]).value.0
      ensures g in run.result.value.0 && run.result.value.0[g] == send(k, run.issued[k]).value.0[g]
    {
      if k == 0 {
        ResolveMergeHead(genes, cycles, send);
      } else {
        assert run.issued[k] == rest.issued[k - 1];
        assert k == 1 + (k - 1);
        RetryMergeAt(send, 1, cycles - 1, first.0, first.1, k - 1, g);
      }
    }
  }

  /** A name missed by the first pass and found by the second is resolved with two cycles, not with one. */
  lemma SecondPassRescues(g: string, v: Json, query: Query)
    requires QueryGene(query, 0, g) == Success(None)
    requires QueryGene(query, 1, g) == Success(Some(v))
    ensures Resolve([g], 1, Passes(query)).result == Success((map[], [g]))
    ensures Resolve([g], 2, Passes(query)).result == Success((map[g := v], []))
  {
    GatherInOrder(query, 0, [g]);
    GatherInOrder(query, 1, [g]);
    var miss: seq<Outcome>, hit: seq<Outcome> := [(g, None)], [(g, Some(v))];
    assert Gather(query, 0, [g]).value == miss;
    assert Gather(query, 1, [g]).value == hit;
    assert miss[..|miss| - 1] == [] && hit[..|hit| - 1] == [];
    var none: seq<string> := [];
    assert Partition(miss) == (map[], none + [g]);
    assert none + [g] == [g];
    assert Partition(hit) == (map[][g := v], none);
    assert AsyncRequest(query, 0, [g]) == Success((map[], [g]));
    assert AsyncRequest(query, 1, [g]) == Success((map[g := v], []));
    var empty: map<string, Json> := map[];
    assert empty + map[g := v] == map[g := v];
    assert Retry(Passes(query), 1, 0, empty, [g]).result == Success((empty, [g]));
    assert Retry(Passes(query), 2, 0, empty + map[g := v], []).result == Success((map[g := v], []));
  }
}
