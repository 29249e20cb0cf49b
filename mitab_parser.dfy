/**
 * The `MITAB_parser` class of BioTools/MITAB_parser.py: the value check `Check_Value`, the
 * construction-time validation of the requested kinds and of the table's columns, and the three
 * extraction methods, two of which replace the stored table by a narrower one.
 */
module MitabParser {
  import opened Wrappers
  import opened MitabEntries
  import opened MitabFields

  // ---------------------------------------------------------------- Check_Value

  /** The sentinel default of `Check_Value`'s `message` parameter. */
  const DefaultMessage: string := "Wrong value123"

  /** The message of a raised `Exception`. The set-valued f-strings are kept as their parts, since
    * the order in which Python prints a set is not fixed. */
  datatype Message =
    | Given(text: string)                                 // a message passed by the caller
    | WrongValue(valname: string, valid: set<string>)     // 'Wrong value of "{valname}" variable! Choose one of {valid}'
    | InvalidKind(kinds: set<string>)                     // _validate_required_data's message
    | MissingColumn(column: string, needed: set<string>)  // _check_columns's message

  /** `Check_Value`: None when `val` is valid, otherwise the message of the raised exception. */
  function CheckValue(val: string, valid: set<string>, valname: string, message: Message): (r: Option<Message>)
    ensures r.None? <==> val in valid
    ensures r.Some? ==> r.value == (if message == Given(DefaultMessage) then WrongValue(valname, valid) else message)
  {
    if val in valid then None
    else if message == Given(DefaultMessage) then Some(WrongValue(valname, valid))
    else Some(message)
  }

  /** The default message names the value's group and the whole valid set; any other message is raised as given. */
  lemma DefaultMessageNamesValidSet(val: string, valid: set<string>, valname: string)
    requires val !in valid
    ensures CheckValue(val, valid, valname, Given(DefaultMessage)) == Some(WrongValue(valname, valid))
    ensures forall m :: m != Given(DefaultMessage) ==> CheckValue(val, valid, valname, m) == Some(m)
  {
  }

  // ---------------------------------------------------------------- kinds and columns

  /** The kinds of data the parser extracts (`valid_parsing_data`). */
  datatype Kind = ProteinIdKind | TaxidKind | PublicationsKind

  function KindName(k: Kind): string
  {
    match k
    case ProteinIdKind => "protein_id"
    case TaxidKind => "taxid"
    case PublicationsKind => "publications"
  }

  const ValidKinds: set<string> := {"protein_id", "taxid", "publications"}

  function KindOf(name: string): (r: Option<Kind>)
    ensures r.Some? <==> name in ValidKinds
    ensures r.Some? ==> KindName(r.value) == name
  {
    if name == "protein_id" then Some(ProteinIdKind)
    else if name == "taxid" then Some(TaxidKind)
    else if name == "publications" then Some(PublicationsKind)
    else None
  }

  const IdA: string := "#ID(s) interactor A"
  const IdB: string := "ID(s) interactor B"
  const AliasA: string := "Alias(es) interactor A"
  const AliasB: string := "Alias(es) interactor B"
  const TaxidA: string := "Taxid interactor A"
  const TaxidB: string := "Taxid interactor B"
  const PublicationColumn: string := "Publication Identifier(s)"

  /** The columns the extraction method of each kind reads. */
  function Columns(k: Kind): set<string>
  {
    match k
    case ProteinIdKind => {IdA, IdB, AliasA, AliasB}
    case TaxidKind => {TaxidA, TaxidB}
    case PublicationsKind => {PublicationColumn}
  }

  /** The union of the columns the requested kinds read. */
  function Necessary(kinds: seq<Kind>): (r: set<string>)
    ensures forall c :: c in r <==> exists i :: 0 <= i < |kinds| && c in Columns(kinds[i])
    decreases |kinds|
  {
    if kinds == [] then {} else Necessary(kinds[..|kinds| - 1]) + Columns(kinds[|kinds| - 1])
  }

  /** `_validate_required_data`: the first requested name that is not a kind raises. */
  function ValidateKinds(names: seq<string>): (r: Result<seq<Kind>, Message>)
    ensures r.Success? <==> forall i :: 0 <= i < |names| ==> names[i] in ValidKinds
    ensures r.Success? ==> |r.value| == |names| && forall i :: 0 <= i < |names| ==> KindName(r.value[i]) == names[i]
    ensures r.Failure? ==> r.error == InvalidKind(ValidKinds)
    decreases |names|
  {
    if names == [] then Success([])
    else
      match CheckValue(names[0], ValidKinds, "", InvalidKind(ValidKinds))
      case Some(m) => Failure(m)
      case None =>
        match ValidateKinds(names[1..])
        case Failure(m) => Failure(m)
        case Success(ks) => Success([KindOf(names[0]).value] + ks)
  }

  /** `_check_columns`: every column the requested kinds read must be in the table. The columns are
    * checked in set order, which Python leaves unspecified, so the one reported is any missing one. */
  method CheckColumns(columns: set<string>, needed: set<string>) returns (r: Option<Message>)
    ensures r.None? <==> needed <= columns
    ensures r.Some? ==> exists c :: c in needed && c !in columns && r.value == MissingColumn(c, needed)
  {
    var left := needed;
    while left != {}
      invariant left <= needed
      invariant forall c :: c in needed && c !in left ==> c in columns
      decreases left
    {
      var c :| c in left;
      var m := CheckValue(c, columns, "", MissingColumn(c, needed));
      if m.Some? {
        return m;
      }
      left := left - {c};
    }
    return None;
  }

  // ---------------------------------------------------------------- the table

  /** A DataFrame of text cells: its column names and its rows, each keyed by column name. */
  datatype Table = Table(columns: set<string>, rows: seq<map<string, string>>)

  predicate WellFormed(t: Table)
  {
    forall i :: 0 <= i < |t.rows| ==> t.rows[i].Keys == t.columns
  }

  /** `df.loc[:, cols]` for columns the table has: the same rows, keeping only those columns. */
  function Project(t: Table, cols: set<string>): (r: Table)
    requires WellFormed(t) && cols <= t.columns
    ensures WellFormed(r) && r.columns == cols && |r.rows| == |t.rows|
    ensures forall i, c :: 0 <= i < |t.rows| && c in cols ==> r.rows[i][c] == t.rows[i][c]
  {
    Table(cols, seq(|t.rows|, i requires 0 <= i < |t.rows| => map c | c in cols :: t.rows[i][c]))
  }

  const ProteinColumns: set<string> := Columns(ProteinIdKind)
  const RenamedColumns: set<string> := {"ID_A", "ID_B", "Alias_A", "Alias_B"}

  /** The row of `get_UID_Gene_from_mitab`'s narrowed table, under the new column names. */
  function RenamedRow(row: map<string, string>): (r: map<string, string>)
    requires ProteinColumns <= row.Keys
    ensures r.Keys == RenamedColumns
    ensures r["ID_A"] == row[IdA] && r["ID_B"] == row[IdB] && r["Alias_A"] == row[AliasA] && r["Alias_B"] == row[AliasB]
  {
    map["ID_A" := row[IdA], "ID_B" := row[IdB], "Alias_A" := row[AliasA], "Alias_B" := row[AliasB]]
  }

  /** `df.loc[:, target_columns].rename(...)`: the four identifier columns under their short names. */
  function Renamed(t: Table): (r: Table)
    requires WellFormed(t) && ProteinColumns <= t.columns
    ensures WellFormed(r) && r.columns == RenamedColumns && |r.rows| == |t.rows|
  {
    Table(RenamedColumns, seq(|t.rows|, i requires 0 <= i < |t.rows| => RenamedRow(t.rows[i])))
  }

  /** Extraction narrows the stored table, so after `get_UID_Gene_from_mitab` neither of the other
    * kinds can be extracted: their columns are gone and the lookup raises KeyError. */
  lemma RenamedDropsOtherKinds(t: Table)
    requires WellFormed(t) && ProteinColumns <= t.columns
    ensures !(Columns(TaxidKind) <= Renamed(t).columns) && !(Columns(PublicationsKind) <= Renamed(t).columns)
    ensures ProteinColumns !! Renamed(t).columns
  {
    assert TaxidA !in RenamedColumns;
    assert PublicationColumn !in RenamedColumns;
  }

  // ---------------------------------------------------------------- extraction results

  /** `Series.combine_first` on one row: the primary value, or the other one where the primary is None. */
  function CombineFirst(primary: Option<string>, other: Option<string>): (r: Option<string>)
    ensures r.Some? <==> primary.Some? || other.Some?
    ensures primary.Some? ==> r == primary
    ensures primary.None? ==> r == other
  {
    if primary.Some? then primary else other
  }

  /** One row of `get_UID_Gene_from_mitab`'s result. */
  datatype UidGene = UidGene(uniprotA: Option<string>, uniprotB: Option<string>, geneA: Option<string>, geneB: Option<string>)

  /** Each side's identifier and gene, from the ID column, or from the alias column where the ID column has none. */
  function UidGeneOf(row: map<string, string>): UidGene
    requires RenamedColumns <= row.Keys
  {
    UidGene(CombineFirst(Uniprot(row["ID_A"]), Uniprot(row["Alias_A"])),
            CombineFirst(Uniprot(row["ID_B"]), Uniprot(row["Alias_B"])),
            CombineFirst(Gene(row["ID_A"]), Gene(row["Alias_A"])),
            CombineFirst(Gene(row["ID_B"]), Gene(row["Alias_B"])))
  }

  /** Every identifier found has the accession shape and every gene the symbol shape; the ID column
    * wins over the alias column. */
  lemma UidGeneShapes(row: map<string, string>)
    requires RenamedColumns <= row.Keys
    ensures var u := UidGeneOf(row);
            && (u.uniprotA.Some? ==> Matches(Accession, u.uniprotA.value))
            && (u.uniprotB.Some? ==> Matches(Accession, u.uniprotB.value))
            && (u.geneA.Some? ==> Matches(Symbol, u.geneA.value))
            && (u.geneB.Some? ==> Matches(Symbol, u.geneB.value))
    ensures Uniprot(row["ID_A"]).Some? ==> UidGeneOf(row).uniprotA == Uniprot(row["ID_A"])
    ensures Gene(row["ID_A"]).Some? ==> UidGeneOf(row).geneA == Gene(row["ID_A"])
    ensures Uniprot(row["ID_B"]).Some? ==> UidGeneOf(row).uniprotB == Uniprot(row["ID_B"])
    ensures Gene(row["ID_B"]).Some? ==> UidGeneOf(row).geneB == Gene(row["ID_B"])
  {
    UniprotShape(row["ID_A"]);
    UniprotShape(row["Alias_A"]);
    UniprotShape(row["ID_B"]);
    UniprotShape(row["Alias_B"]);
  }

  lemma UniprotShape(cell: string)
    ensures Uniprot(cell).Some? ==> Matches(Accession, Uniprot(cell).value)
  {
  }

  /** The errors the extraction methods raise. */
  datatype Error =
    | KeyError(missing: set<string>)  // `df.loc` / `df[...]` of columns the table lacks
    | TaxidTypeError                  // `taxid_type` is not one of 'digits', 'text', 'full'
    | UnpackError(item: string)       // `key, value = re.split(":", item, 1)` on an item with no colon

  /** `get_publication_from_mitab`'s `apply` over the rows' parses: the first row that raises makes the whole call raise. */
  function Collect(parses: seq<Result<Pubs, PubError>>): (r: Result<seq<Pubs>, Error>)
    decreases |parses|
  {
    if parses == [] then Success([])
    else
      match Collect(parses[..|parses| - 1])
      case Failure(e) => Failure(e)
      case Success(ps) =>
        match parses[|parses| - 1]
        case Failure(NotEnoughValues(item)) => Failure(UnpackError(item))
        case Success(p) => Success(ps + [p])
  }

  /** One dict per row when no row raises, each that row's parse; otherwise the first row's error. */
  lemma {:induction false} CollectSpec(parses: seq<Result<Pubs, PubError>>)
    ensures Collect(parses).Success? <==> forall i :: 0 <= i < |parses| ==> parses[i].Success?
    ensures Collect(parses).Success? ==>
      |Collect(parses).value| == |parses| && forall i :: 0 <= i < |parses| ==> Collect(parses).value[i] == parses[i].value
    ensures Collect(parses).Failure? ==>
      && Collect(parses).error.UnpackError?
      && exists i :: 0 <= i < |parses| && parses[i] == Failure(NotEnoughValues(Collect(parses).error.item))
                     && forall j :: 0 <= j < i ==> parses[j].Success?
    decreases |parses|
  {
    if parses != [] {
      var init := parses[..|parses| - 1];
      CollectSpec(init);
      assert forall i :: 0 <= i < |init| ==> init[i] == parses[i];
    }
  }

  function PublicationCells(t: Table): (r: seq<Result<Pubs, PubError>>)
    requires WellFormed(t) && PublicationColumn in t.columns
    ensures |r| == |t.rows| && forall i :: 0 <= i < |t.rows| ==> r[i] == Publications(t.rows[i][PublicationColumn])
  {
    seq(|t.rows|, i requires 0 <= i < |t.rows| => Publications(t.rows[i][PublicationColumn]))
  }

  /** A failed prefix fixes the result: `apply` stops at the first row that raises. */
  lemma {:induction false} CollectStays(parses: seq<Result<Pubs, PubError>>, n: nat)
    requires n <= |parses| && Collect(parses[..n]).Failure?
    ensures Collect(parses) == Collect(parses[..n])
    decreases |parses|
  {
    if n < |parses| {
      var init := parses[..|parses| - 1];
      assert init[..n] == parses[..n];
      CollectStays(init, n);
    } else {
      assert parses[..n] == parses;
    }
  }

  const TaxidColumns: set<string> := Columns(TaxidKind)

  /** `get_UID_Gene_from_mitab`'s result over a renamed table: one row of identifiers and genes per input row. */
  function UidGenes(t: Table): (r: seq<UidGene>)
    requires WellFormed(t) && t.columns == RenamedColumns
    ensures |r| == |t.rows|
  {
    seq(|t.rows|, i requires 0 <= i < |t.rows| => UidGeneOf(t.rows[i]))
  }

  /** `get_taxid_from_mitab`'s result: the search of each side's cell, one pair per row. */
  function TaxidRows(t: Table, mode: TaxidType): (r: seq<(Option<string>, Option<string>)>)
    requires WellFormed(t) && TaxidColumns <= t.columns
    ensures |r| == |t.rows|
  {
    seq(|t.rows|, i requires 0 <= i < |t.rows| => (Search(mode, t.rows[i][TaxidA]), Search(mode, t.rows[i][TaxidB])))
  }

  /** A loop that builds `all` one element at a time: the prefix grows by the next element. */
  lemma PrefixGrows<T>(all: seq<T>, i: nat, done: seq<T>, next: T)
    requires i < |all| && done == all[..i] && next == all[i]
    ensures done + [next] == all[..i + 1]
  {
  }

  // ---------------------------------------------------------------- the parser object

  /** `MITAB_parser`: the table it extracts from, which two of its methods replace, and the requested kinds. */
  class Parser {
    var df: Table
    var kinds: seq<Kind>

    predicate Valid()
      reads this
    {
      WellFormed(df)
    }

    constructor Init(df: Table, kinds: seq<Kind>)
      requires WellFormed(df)
      ensures this.df == df && this.kinds == kinds && Valid()
    {
      this.df := df;
      this.kinds := kinds;
    }

    /** `MITAB_parser(df, parsing_data)`: construction fails on the first name that is not a kind, and
      * then on a column the requested kinds read that the table lacks; otherwise it keeps the table. */
    static method New(df: Table, parsingData: seq<string>) returns (r: Result<Parser, Message>)
      requires WellFormed(df)
      ensures r.Success? <==> ValidateKinds(parsingData).Success? && Necessary(ValidateKinds(parsingData).value) <= df.columns
      ensures r.Success? ==> fresh(r.value) && r.value.df == df && r.value.kinds == ValidateKinds(parsingData).value && r.value.Valid()
      ensures r.Failure? && ValidateKinds(parsingData).Failure? ==> r.error == InvalidKind(ValidKinds)
      ensures r.Failure? && ValidateKinds(parsingData).Success? ==>
        var needed := Necessary(ValidateKinds(parsingData).value);
        exists c :: c in needed && c !in df.columns && r.error == MissingColumn(c, needed)
    {
      var kinds := ValidateKinds(parsingData);
      if kinds.Failure? {
        return Failure(kinds.error);
      }
      var missing := CheckColumns(df.columns, Necessary(kinds.value));
      if missing.Some? {
        return Failure(missing.value);
      }
      var p := new Parser.Init(df, kinds.value);
      return Success(p);
    }

    /** `get_UID_Gene_from_mitab`: narrows the stored table to the four identifier columns under
      * their short names, then finds each side's identifier and gene, ID column first. */
    method GetUidGene() returns (r: Result<seq<UidGene>, Error>)
      requires Valid()
      modifies this
      ensures Valid() && kinds == old(kinds)
      ensures ProteinColumns <= old(df).columns ==> df == Renamed(old(df)) && r == Success(UidGenes(df))
      ensures !(ProteinColumns <= old(df).columns) ==> df == old(df) && r == Failure(KeyError(ProteinColumns - old(df).columns))
    {
      if !(ProteinColumns <= df.columns) {
        return Failure(KeyError(ProteinColumns - df.columns));
      }
      df := Renamed(df);
      var out := FindUidGenes(df);
      return Success(out);
    }

    /** The rows of `get_UID_Gene_from_mitab`'s result, in table order. */
    static method FindUidGenes(t: Table) returns (out: seq<UidGene>)
      requires WellFormed(t) && t.columns == RenamedColumns
      ensures out == UidGenes(t)
    {
      var rows := t.rows;
      out := [];
      var i := 0;
      while i < |rows|
        invariant 0 <= i <= |rows| && rows == t.rows
        invariant out == UidGenes(t)[..i]
      {
        var u := FindUidGene(rows[i]);
        PrefixGrows(UidGenes(t), i, out, u);
        out := out + [u];
        i := i + 1;
      }
      assert UidGenes(t)[..i] == UidGenes(t);
    }

    /** One row of `get_UID_Gene_from_mitab`, from the `find_uniprot` and `find_gene` scans of its four cells. */
    static method FindUidGene(row: map<string, string>) returns (u: UidGene)
      requires RenamedColumns <= row.Keys
      ensures u == UidGeneOf(row)
    {
      var ua := FindUniprot(row["ID_A"]);
      var ua' := FindUniprot(row["Alias_A"]);
      var ub := FindUniprot(row["ID_B"]);
      var ub' := FindUniprot(row["Alias_B"]);
      var ga := FindGene(row["ID_A"]);
      var ga' := FindGene(row["Alias_A"]);
      var gb := FindGene(row["ID_B"]);
      var gb' := FindGene(row["Alias_B"]);
      u := UidGene(CombineFirst(ua, ua'), CombineFirst(ub, ub'), CombineFirst(ga, ga'), CombineFirst(gb, gb'));
    }

    /** `get_taxid_from_mitab`: rejects an unknown `taxid_type` before touching the table, then
      * narrows the stored table to the two taxid columns and searches each cell. */
    method GetTaxid(taxidType: string := "digits") returns (r: Result<seq<(Option<string>, Option<string>)>, Error>)
      requires Valid()
      modifies this
      ensures Valid() && kinds == old(kinds)
      ensures TaxidTypeOf(taxidType).None? ==> df == old(df) && r == Failure(TaxidTypeError)
      ensures TaxidTypeOf(taxidType).Some? && !(TaxidColumns <= old(df).columns) ==>
        df == old(df) && r == Failure(KeyError(TaxidColumns - old(df).columns))
      ensures TaxidTypeOf(taxidType).Some? && TaxidColumns <= old(df).columns ==>
        df == Project(old(df), TaxidColumns) && r == Success(TaxidRows(df, TaxidTypeOf(taxidType).value))
    {
      var mode := TaxidTypeOf(taxidType);
      if mode.None? {
        return Failure(TaxidTypeError);
      }
      if !(TaxidColumns <= df.columns) {
        return Failure(KeyError(TaxidColumns - df.columns));
      }
      df := Project(df, TaxidColumns);
      var rows := df.rows;
      var out: seq<(Option<string>, Option<string>)> := [];
      var i := 0;
      while i < |rows|
        invariant 0 <= i <= |rows| && rows == df.rows && df == Project(old(df), TaxidColumns) && kinds == old(kinds)
        invariant out == TaxidRows(df, mode.value)[..i]
      {
        var pair := (Search(mode.value, rows[i][TaxidA]), Search(mode.value, rows[i][TaxidB]));
        PrefixGrows(TaxidRows(df, mode.value), i, out, pair);
        out := out + [pair];
        i := i + 1;
      }
      assert TaxidRows(df, mode.value)[..i] == TaxidRows(df, mode.value);
      return Success(out);
    }

    /** `get_publication_from_mitab`: parses each row's publication cell; the table is left as it is. */
    method GetPublications() returns (r: Result<seq<Pubs>, Error>)
      requires Valid()
      ensures PublicationColumn !in df.columns ==> r == Failure(KeyError({PublicationColumn}))
      ensures PublicationColumn in df.columns ==> r == Collect(PublicationCells(df))
    {
      if PublicationColumn !in df.columns {
        return Failure(KeyError({PublicationColumn}));
      }
      var rows := df.rows;
      ghost var parses := PublicationCells(df);
      var out: seq<Pubs> := [];
      var i := 0;
      while i < |rows|
        invariant 0 <= i <= |rows| && rows == df.rows
        invariant Collect(parses[..i]) == Success(out)
      {
        var p := ParseIdentifiers(rows[i][PublicationColumn]);
        assert parses[..i + 1][..i] == parses[..i];
        if p.Failure? {
          CollectStays(parses, i + 1);
          return Failure(UnpackError(p.error.item));
        }
        out := out + [p.value];
        i := i + 1;
      }
      assert parses[..i] == parses;
      return Success(out);
    }
  }
}
