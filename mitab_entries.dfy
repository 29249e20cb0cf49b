/**
 * Identifier and gene extraction of `get_UID_Gene_from_mitab` (BioTools/MITAB_parser.py):
 * `db_pattern.findall` over a `|`-joined cell, the accession and gene-symbol shapes checked
 * with `re.match`, and the two nested scanners `find_uniprot` and `find_gene`.
 */
module MitabEntries {
  import opened Wrappers
  import opened MitabText

  /** The databases of `db_pattern`, in the order of its alternation. */
  datatype Db = Uniprotkb | PsiMi | EntrezGene

  function DbName(d: Db): string
  {
    match d
    case Uniprotkb => "uniprotkb"
    case PsiMi => "psi-mi"
    case EntrezGene => "entrez gene/locuslink"
  }

  /** One `(db, value)` pair returned by `findall`. */
  type Entry = (Db, string)

  /** `db_pattern` can start a match for database `d` at the front of `s`. */
  predicate TagAt(s: string, d: Db)
  {
    var n := |DbName(d)|;
    |s| > n + 1 && s[..n + 1] == DbName(d) + ":" && s[n + 1] != '|'
  }

  /** The greedy `([^|]+)` group after `d:` at the front of `s`. */
  function ValueAt(s: string, d: Db): (v: string)
    requires TagAt(s, d)
    ensures v != [] && '|' !in v
    ensures |DbName(d)| + 1 + |v| <= |s| && s[..|DbName(d)| + 1 + |v|] == DbName(d) + ":" + v
    ensures |DbName(d)| + 1 + |v| == |s| || s[|DbName(d)| + 1 + |v|] == '|'
  {
    var n := |DbName(d)| + 1;
    var rest := s[n..];
    var v := rest[..IndexOf(rest, '|')];
    assert s[..n + |v|] == s[..n] + v;
    v
  }

  /** `db_pattern` tried at the front of `s`, alternatives in order. */
  function MatchHere(s: string): (r: Option<Entry>)
    ensures r.Some? ==> TagAt(s, r.value.0) && r.value.1 == ValueAt(s, r.value.0)
    ensures r.None? ==> !TagAt(s, Uniprotkb) && !TagAt(s, PsiMi) && !TagAt(s, EntrezGene)
  {
    if TagAt(s, Uniprotkb) then Some((Uniprotkb, ValueAt(s, Uniprotkb)))
    else if TagAt(s, PsiMi) then Some((PsiMi, ValueAt(s, PsiMi)))
    else if TagAt(s, EntrezGene) then Some((EntrezGene, ValueAt(s, EntrezGene)))
    else None
  }

  /** `db_pattern.findall(s)`: leftmost matches, each new search resuming where the last match ended. */
  function Entries(s: string): (es: seq<Entry>)
    ensures forall k :: 0 <= k < |es| ==> es[k].1 != [] && '|' !in es[k].1
    decreases |s|
  {
    if s == [] then []
    else
      match MatchHere(s)
      case None => Entries(s[1..])
      case Some(e) => [e] + Entries(s[|DbName(e.0)| + 1 + |e.1|..])
  }

  /** A match for `d` starts with the first letter of its name, so the alternatives never compete. */
  lemma TagAtFirst(s: string, d: Db)
    ensures TagAt(s, d) ==> s[0] == DbName(d)[0]
  {
    if TagAt(s, d) {
      assert s[..|DbName(d)| + 1][0] == s[0];
    }
  }

  /** `d:v` followed by the end of the cell or by `|` starts a match for `d` whose value is `v`. */
  lemma ValueItem(d: Db, v: string, tail: string)
    requires v != [] && '|' !in v
    requires tail == [] || tail[0] == '|'
    ensures TagAt(DbName(d) + ":" + v + tail, d)
    ensures ValueAt(DbName(d) + ":" + v + tail, d) == v
  {
    var n := |DbName(d)| + 1;
    var t := DbName(d) + ":" + v + tail;
    assert t[..n] == DbName(d) + ":";
    assert t[n..] == v + tail;
    IndexOfAbsent(v, '|', tail);
    assert (v + tail)[..|v|] == v;
  }

  /** `d:v` followed by the end of the cell or by `|` is matched as the entry `(d, v)`. */
  lemma MatchItem(d: Db, v: string, tail: string)
    requires v != [] && '|' !in v
    requires tail == [] || tail[0] == '|'
    ensures MatchHere(DbName(d) + ":" + v + tail) == Some((d, v))
  {
    var t := DbName(d) + ":" + v + tail;
    ValueItem(d, v, tail);
    TagAtFirst(t, d);
    TagAtFirst(t, Uniprotkb);
    TagAtFirst(t, PsiMi);
  }

  /** An entry `d:v` ending the cell is the cell's only entry. */
  lemma EntryEnds(d: Db, v: string)
    requires v != [] && '|' !in v
    ensures Entries(DbName(d) + ":" + v) == [(d, v)]
  {
    var s := DbName(d) + ":" + v;
    MatchItem(d, v, []);
    assert s + [] == s;
    assert s[|DbName(d)| + 1 + |v|..] == [];
  }

  /** An entry `d:v` followed by `|` is found, and scanning resumes after the `|`. */
  lemma EntryBeforeBar(d: Db, v: string, rest: string)
    requires v != [] && '|' !in v
    ensures Entries(DbName(d) + ":" + v + "|" + rest) == [(d, v)] + Entries(rest)
  {
    var t := DbName(d) + ":" + v + "|" + rest;
    MatchItem(d, v, "|" + rest);
    assert t == DbName(d) + ":" + v + ("|" + rest);
    var bar := t[|DbName(d)| + 1 + |v|..];
    assert bar == "|" + rest;
    TagAtFirst(bar, Uniprotkb);
    TagAtFirst(bar, PsiMi);
    TagAtFirst(bar, EntrezGene);
    assert bar[1..] == rest;
  }

  /** An entry `d:v` ending the cell, or followed by `|`, is found, and scanning resumes after the `|`. */
  lemma EntriesOfItem(d: Db, v: string, rest: string)
    requires v != [] && '|' !in v
    ensures Entries(DbName(d) + ":" + v) == [(d, v)]
    ensures Entries(DbName(d) + ":" + v + "|" + rest) == [(d, v)] + Entries(rest)
  {
    EntryEnds(d, v);
    EntryBeforeBar(d, v, rest);
  }

  /** `s` begins with the name of `d` and its colon. */
  predicate NamesAt(s: string, d: Db)
  {
    DbName(d) + ":" <= s
  }

  /** An item of another database, such as `intact:EBI-1`: none of the three names with its colon occurs in it. */
  predicate Foreign(item: string)
  {
    forall d: Db, i :: 0 <= i <= |item| ==> !NamesAt(item[i..], d)
  }

  /** No database name, nor its colon, is a `|`. */
  lemma NameBarFree(d: Db)
    ensures '|' !in DbName(d) + ":"
  {
    match d
    case Uniprotkb => assert DbName(d) + ":" == "uniprotkb:";
    case PsiMi => assert DbName(d) + ":" == "psi-mi:";
    case EntrezGene => assert DbName(d) + ":" == "entrez gene/locuslink:";
  }

  /** A prefix of `item + tail` longer than `item` holds the `|` that begins `tail`. */
  lemma BarInPrefix(item: string, tail: string, n: nat)
    requires |item| < n <= |item| + |tail| && tail[0] == '|'
    ensures '|' in (item + tail)[..n]
  {
    assert (item + tail)[..n][|item|] == '|';
  }

  /** A tag for `d` at the front of `item + tail`, where `tail` is empty or begins with `|`, lies
    * within `item`: the name and its colon hold no `|`. */
  lemma TagNamesItem(item: string, tail: string, d: Db)
    requires tail == [] || tail[0] == '|'
    requires TagAt(item + tail, d)
    ensures NamesAt(item, d)
  {
    var name := DbName(d) + ":";
    var s := item + tail;
    assert s[..|name|] == name;
    if |item| < |name| {
      BarInPrefix(item, tail, |name|);
    }
    NameBarFree(d);
    assert item[..|name|] == s[..|name|];
  }

  /** A tag for `d` cannot start a foreign item that the end of the cell or a `|` follows. */
  lemma ForeignNoTag(item: string, tail: string, d: Db)
    requires !NamesAt(item, d)
    requires tail == [] || tail[0] == '|'
    ensures !TagAt(item + tail, d)
  {
    if TagAt(item + tail, d) {
      TagNamesItem(item, tail, d);
      assert false;
    }
  }

  /** No match starts inside a foreign item that the end of the cell or a `|` follows. */
  lemma ForeignNoMatch(item: string, tail: string)
    requires Foreign(item)
    requires tail == [] || tail[0] == '|'
    ensures MatchHere(item + tail).None?
  {
    assert item[0..] == item;
    assert !NamesAt(item[0..], Uniprotkb) && !NamesAt(item[0..], PsiMi) && !NamesAt(item[0..], EntrezGene);
    ForeignNoTag(item, tail, Uniprotkb);
    ForeignNoTag(item, tail, PsiMi);
    ForeignNoTag(item, tail, EntrezGene);
  }

  /** A foreign item gives no entries, however much of the cell follows it. */
  lemma {:induction false} ForeignSkipped(item: string, tail: string)
    requires Foreign(item)
    requires tail == [] || tail[0] == '|'
    ensures Entries(item + tail) == Entries(tail)
    decreases |item|
  {
    if item != [] {
      ForeignNoMatch(item, tail);
      var next := item[1..];
      assert Foreign(next) by {
        forall d: Db, i | 0 <= i <= |next| ensures !NamesAt(next[i..], d) {
          assert next[i..] == item[i + 1..];
        }
      }
      assert (item + tail)[1..] == next + tail;
      ForeignSkipped(next, tail);
    } else {
      assert item + tail == tail;
    }
  }

  /** An item of another database contributes nothing: alone it has no entries, and before a `|`
    * the cell's entries are those of the rest, as in `intact:EBI-1|uniprotkb:P12345`. */
  lemma ForeignItem(item: string, rest: string)
    requires Foreign(item)
    ensures Entries(item) == []
    ensures Entries(item + "|" + rest) == Entries(rest)
  {
    ForeignAlone(item);
    ForeignBeforeBar(item, rest);
  }

  lemma ForeignAlone(item: string)
    requires Foreign(item)
    ensures Entries(item) == []
  {
    ForeignSkipped(item, []);
    assert item + [] == item;
  }

  lemma ForeignBeforeBar(item: string, rest: string)
    requires Foreign(item)
    ensures Entries(item + "|" + rest) == Entries(rest)
  {
    ForeignSkipped(item, "|" + rest);
    assert item + "|" + rest == item + ("|" + rest);
    BarSkipped(rest);
  }

  /** The three names begin with `u`, `p` and `e`, so an item without those letters, such as
    * `intact:EBI-1`, is foreign. */
  lemma ForeignByLetters(item: string)
    requires forall j :: 0 <= j < |item| ==> item[j] != 'u' && item[j] != 'p' && item[j] != 'e'
    ensures Foreign(item)
  {
    forall d: Db, i | 0 <= i <= |item| ensures !NamesAt(item[i..], d) {
      if i < |item| {
        assert item[i..][0] == item[i];
      }
    }
  }

  /** A `|` starts no match, so the scan moves past it. */
  lemma BarSkipped(rest: string)
    ensures Entries("|" + rest) == Entries(rest)
  {
    var bar := "|" + rest;
    TagAtFirst(bar, Uniprotkb);
    TagAtFirst(bar, PsiMi);
    TagAtFirst(bar, EntrezGene);
    assert bar[1..] == rest;
  }

  // ---------------------------------------------------------------- value shapes

  /** The two shapes the parser accepts values in. */
  datatype Shape =
    | Accession  // `[A-Z][A-Z0-9]{5,9}`
    | Symbol     // `[A-Za-z][A-Za-z0-9\-]*`

  predicate Fits(shape: Shape, w: string)
  {
    match shape
    case Accession =>
      6 <= |w| <= 10 && IsUpper(w[0]) && forall i :: 1 <= i < |w| ==> IsUpper(w[i]) || IsDigit(w[i])
    case Symbol =>
      |w| >= 1 && IsLetter(w[0]) && forall i :: 1 <= i < |w| ==> IsLetter(w[i]) || IsDigit(w[i]) || w[i] == '-'
  }

  /** `re.match('^<shape>$', v)`: Python's `$` also matches just before a final newline. */
  predicate Matches(shape: Shape, v: string)
  {
    Fits(shape, v) || (|v| > 0 && v[|v| - 1] == '\n' && Fits(shape, v[..|v| - 1]))
  }

  /** The entry is from database `d` and its value has the shape. */
  predicate Qualifies(e: Entry, d: Db, shape: Shape)
  {
    e.0 == d && Matches(shape, e.1)
  }

  /** The value of the first qualifying entry, left to right. */
  function FirstValid(es: seq<Entry>, d: Db, shape: Shape): (r: Option<string>)
    ensures r.Some? ==> Matches(shape, r.value)
    ensures r.None? <==> forall k :: 0 <= k < |es| ==> !Qualifies(es[k], d, shape)
    decreases |es|
  {
    if es == [] then None
    else if Qualifies(es[0], d, shape) then Some(es[0].1)
    else FirstValid(es[1..], d, shape)
  }

  /** The value found is that of a qualifying entry with no qualifying entry before it. */
  lemma {:induction false} FirstValidIsFirst(es: seq<Entry>, d: Db, shape: Shape)
    requires FirstValid(es, d, shape).Some?
    ensures exists k :: 0 <= k < |es| && Qualifies(es[k], d, shape) && es[k].1 == FirstValid(es, d, shape).value
                     && forall j :: 0 <= j < k ==> !Qualifies(es[j], d, shape)
    decreases |es|
  {
    if !Qualifies(es[0], d, shape) {
      FirstValidIsFirst(es[1..], d, shape);
      var k :| 0 <= k < |es| - 1 && Qualifies(es[1..][k], d, shape) && es[1..][k].1 == FirstValid(es, d, shape).value
        && forall j :: 0 <= j < k ==> !Qualifies(es[1..][j], d, shape);
      assert es[k + 1] == es[1..][k];
      forall j | 0 <= j < k + 1 ensures !Qualifies(es[j], d, shape) {
        if j > 0 { assert es[j] == es[1..][j - 1]; }
      }
    }
  }

  /** `find_uniprot`'s answer: the first `uniprotkb` value shaped like an accession. */
  function Uniprot(cell: string): Option<string>
  {
    FirstValid(Entries(cell), Uniprotkb, Accession)
  }

  /** `gene_db_priority`. */
  const GenePriority: seq<Db> := [Uniprotkb, PsiMi, EntrezGene]

  /** The first database of `dbs` with a symbol-shaped entry decides; within it the first entry. */
  function ByPriority(es: seq<Entry>, dbs: seq<Db>): (r: Option<string>)
    ensures r.Some? ==> Matches(Symbol, r.value)
    decreases |dbs|
  {
    if dbs == [] then None
    else
      match FirstValid(es, dbs[0], Symbol)
      case Some(v) => Some(v)
      case None => ByPriority(es, dbs[1..])
  }

  /** `find_gene`'s answer. */
  function Gene(cell: string): Option<string>
  {
    ByPriority(Entries(cell), GenePriority)
  }

  /**
   * `find_gene` takes its value from the highest-priority database that has a symbol-shaped
   * entry; it finds nothing exactly when no entry of the cell is symbol-shaped.
   */
  lemma GeneByPriority(cell: string)
    ensures var es := Entries(cell);
      Gene(cell).Some? ==>
        exists p :: 0 <= p < |GenePriority|
                    && Gene(cell) == FirstValid(es, GenePriority[p], Symbol)
                    && forall q :: 0 <= q < p ==> FirstValid(es, GenePriority[q], Symbol).None?
  {
    var es := Entries(cell);
    var u, m := FirstValid(es, Uniprotkb, Symbol), FirstValid(es, PsiMi, Symbol);
    assert GenePriority[1..] == [PsiMi, EntrezGene] && GenePriority[1..][1..] == [EntrezGene];
    if u.Some? { assert Gene(cell) == FirstValid(es, GenePriority[0], Symbol); }
    else if m.Some? { assert Gene(cell) == FirstValid(es, GenePriority[1], Symbol); }
    else { assert Gene(cell) == FirstValid(es, GenePriority[2], Symbol); }
  }

  /** `find_gene` finds nothing exactly when no entry of the cell is symbol-shaped. */
  lemma GeneNone(cell: string)
    ensures Gene(cell).None? <==> forall k :: 0 <= k < |Entries(cell)| ==> !Matches(Symbol, Entries(cell)[k].1)
  {
    var es := Entries(cell);
    assert GenePriority[1..] == [PsiMi, EntrezGene] && GenePriority[1..][1..] == [EntrezGene];
    if Gene(cell).None? {
      forall k | 0 <= k < |es| ensures !Matches(Symbol, es[k].1) {
        assert !Qualifies(es[k], es[k].0, Symbol);
      }
    } else {
      GeneByPriority(cell);
      var p :| 0 <= p < |GenePriority| && Gene(cell) == FirstValid(es, GenePriority[p], Symbol);
      var k :| 0 <= k < |es| && Qualifies(es[k], GenePriority[p], Symbol);
      assert Matches(Symbol, es[k].1);
    }
  }

  /** The scan both finders run: the entries left to right, stopping at the first from `db` with the shape. */
  method ScanEntries(es: seq<Entry>, db: Db, shape: Shape) returns (r: Option<string>)
    ensures r == FirstValid(es, db, shape)
  {
    var i := 0;
    while i < |es|
      invariant 0 <= i <= |es|
      invariant FirstValid(es[i..], db, shape) == FirstValid(es, db, shape)
    {
      assert es[i..][1..] == es[i + 1..];
      if es[i].0 == db && Matches(shape, es[i].1) {
        return Some(es[i].1);
      }
      i := i + 1;
    }
    return None;
  }

  /** `find_uniprot`: scan the entries left to right and return the first `uniprotkb` accession. */
  method FindUniprot(cell: string) returns (r: Option<string>)
    ensures r == Uniprot(cell)
  {
    r := ScanEntries(Entries(cell), Uniprotkb, Accession);
  }

  /** `find_gene`: for each database in priority order, scan the entries for a symbol-shaped value. */
  method FindGene(cell: string) returns (r: Option<string>)
    ensures r == Gene(cell)
  {
    var es := Entries(cell);
    var p := 0;
    while p < |GenePriority|
      invariant 0 <= p <= |GenePriority|
      invariant ByPriority(es, GenePriority[p..]) == Gene(cell)
    {
      r := ScanEntries(es, GenePriority[p], Symbol);
      if r.Some? {
        return;
      }
      assert GenePriority[p..][1..] == GenePriority[p + 1..];
      p := p + 1;
    }
    return None;
  }
}
