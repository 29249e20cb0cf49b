/**
 * Publication and taxonomy fields of the MITAB parser (BioTools/MITAB_parser.py):
 * `parse_identifiers` of `get_publication_from_mitab` and the three `find_taxid` patterns
 * of `get_taxid_from_mitab`.
 */
module MitabFields {
  import opened Wrappers
  import opened MitabText

  // ---------------------------------------------------------------- parse_identifiers

  /** The publication sources of one cell, each with its identifiers in input order. */
  type Pubs = map<string, seq<string>>

  /** `key, value = re.split(":", item, 1)` unpacks two values only when the item has a colon. */
  datatype PubError = NotEnoughValues(item: string)

  /** One `|`-separated item after `re.split(":", item, 1)`: its two stripped halves, or the item when it has no colon. */
  datatype Item = Pair(key: string, value: string) | NoColon(item: string)

  /** Splits one item on its first colon; later colons stay in the value. */
  function SplitItem(item: string): Item
  {
    var k := IndexOf(item, ':');
    if k == |item| then NoColon(item) else Pair(Strip(item[..k]), Strip(item[k + 1..]))
  }

  /** An item without a colon cannot be unpacked; otherwise its key and value are the stripped
    * halves around its first colon. */
  lemma SplitItemSpec(item: string)
    ensures SplitItem(item).NoColon? <==> ':' !in item
    ensures SplitItem(item).NoColon? ==> SplitItem(item).item == item
    ensures SplitItem(item).Pair? ==>
      exists k :: 0 <= k < |item| && item[k] == ':' && ':' !in item[..k]
                  && SplitItem(item).key == Strip(item[..k]) && SplitItem(item).value == Strip(item[k + 1..])
  {
  }

  /** The items of a cell. */
  function Items(cell: string): (r: seq<Item>)
    ensures |r| == |Split(cell, '|')|
    ensures forall i :: 0 <= i < |r| ==> r[i] == SplitItem(Split(cell, '|')[i])
  {
    var parts := Split(cell, '|');
    seq(|parts|, i requires 0 <= i < |parts| => SplitItem(parts[i]))
  }

  /** One loop iteration: append to the key's list, or start it. */
  function AddValue(m: Pubs, key: string, value: string): Pubs
  {
    if key in m then m[key := m[key] + [value]] else m[key := [value]]
  }

  /** The dict built from the items, or the error of the first item without a colon. */
  function ParseItems(items: seq<Item>): Result<Pubs, PubError>
    decreases |items|
  {
    if items == [] then Success(map[])
    else
      var last := items[|items| - 1];
      match ParseItems(items[..|items| - 1])
      case Failure(e) => Failure(e)
      case Success(m) =>
        match last
        case NoColon(item) => Failure(NotEnoughValues(item))
        case Pair(key, value) => Success(AddValue(m, key, value))
  }

  /** `parse_identifiers`: split the cell on `|`, then each item on its first `:`. */
  function Publications(cell: string): Result<Pubs, PubError>
  {
    ParseItems(Items(cell))
  }

  /** `parse_identifiers` as the loop it is, filling the dict in place. */
  method ParseIdentifiers(cell: string) returns (r: Result<Pubs, PubError>)
    ensures r == Publications(cell)
  {
    var items := Split(cell, '|');
    ghost var parsed := Items(cell);
    var result: Pubs := map[];
    var i := 0;
    while i < |items|
      invariant 0 <= i <= |items|
      invariant ParseItems(parsed[..i]) == Success(result)
    {
      var item := items[i];
      assert parsed[..i + 1][..i] == parsed[..i];
      assert parsed[i] == SplitItem(item);
      if ':' !in item {
        FailureStays(parsed, i + 1);
        return Failure(NotEnoughValues(item));
      }
      var k := IndexOf(item, ':');
      var key, value := Strip(item[..k]), Strip(item[k + 1..]);
      if key in result {
        result := result[key := result[key] + [value]];
      } else {
        result := result[key := [value]];
      }
      i := i + 1;
    }
    assert parsed[..i] == parsed;
    return Success(result);
  }

  /** The values of `key`, in input order: the reference the dict is checked against. */
  function ValuesFor(items: seq<Item>, key: string): seq<string>
    decreases |items|
  {
    if items == [] then []
    else
      var last := items[|items| - 1];
      ValuesFor(items[..|items| - 1], key) + (if last.Pair? && last.key == key then [last.value] else [])
  }

  /** Once a prefix of the items raises, the whole loop raises with the same error. */
  lemma {:induction false} FailureStays(items: seq<Item>, n: nat)
    requires n <= |items| && ParseItems(items[..n]).Failure?
    ensures ParseItems(items) == ParseItems(items[..n])
    decreases |items|
  {
    if n < |items| {
      var init := items[..|items| - 1];
      assert init[..n] == items[..n];
      FailureStays(init, n);
    } else {
      assert items[..n] == items;
    }
  }

  /** Parsing raises exactly when some item has no colon, and then it names the first one. */
  lemma {:induction false} ParseItemsFails(items: seq<Item>)
    ensures ParseItems(items).Failure? <==> exists i :: 0 <= i < |items| && items[i].NoColon?
    ensures ParseItems(items).Failure? ==>
      exists i :: 0 <= i < |items| && items[i].NoColon? && ParseItems(items).error == NotEnoughValues(items[i].item)
                  && forall j :: 0 <= j < i ==> items[j].Pair?
    decreases |items|
  {
    if items != [] {
      var init := items[..|items| - 1];
      var last := items[|items| - 1];
      ParseItemsFails(init);
      assert forall i :: 0 <= i < |init| ==> init[i] == items[i];
      if ParseItems(init).Failure? {
        var i :| 0 <= i < |init| && init[i].NoColon? && ParseItems(init).error == NotEnoughValues(init[i].item)
                 && forall j :: 0 <= j < i ==> init[j].Pair?;
        assert items[i].NoColon?;
      } else if last.NoColon? {
        assert forall j :: 0 <= j < |items| - 1 ==> items[j].Pair?;
      } else {
        forall i | 0 <= i < |items| ensures items[i].Pair? {
          if i < |init| { assert init[i].Pair?; }
        }
      }
    }
  }

  /** A successful parse means every item had a colon. */
  lemma {:induction false} ParseItemsPairs(items: seq<Item>)
    requires ParseItems(items).Success?
    ensures forall i :: 0 <= i < |items| ==> items[i].Pair?
    decreases |items|
  {
    if items != [] {
      var init := items[..|items| - 1];
      ParseItemsPairs(init);
      forall i | 0 <= i < |items| ensures items[i].Pair? {
        if i < |init| { assert init[i] == items[i]; }
      }
    }
  }

  /** The keys are exactly the items' keys. */
  lemma {:induction false} ParseItemsKeys(items: seq<Item>)
    requires ParseItems(items).Success?
    ensures forall k :: k in ParseItems(items).value <==> exists i :: 0 <= i < |items| && items[i].Pair? && items[i].key == k
    decreases |items|
  {
    if items != [] {
      var init := items[..|items| - 1];
      ParseItemsKeys(init);
      ParseItemsPairs(items);
      forall k ensures k in ParseItems(items).value <==> exists i :: 0 <= i < |items| && items[i].Pair? && items[i].key == k {
        if exists i :: 0 <= i < |items| && items[i].Pair? && items[i].key == k {
          var i :| 0 <= i < |items| && items[i].Pair? && items[i].key == k;
          if i < |init| { assert init[i] == items[i]; }
        }
        if exists i :: 0 <= i < |init| && init[i].Pair? && init[i].key == k {
          var i :| 0 <= i < |init| && init[i].Pair? && init[i].key == k;
          assert init[i] == items[i];
        }
      }
    }
  }

  /** Each key holds its values in input order. */
  lemma {:induction false} ParseItemsValues(items: seq<Item>)
    requires ParseItems(items).Success?
    ensures forall k :: k in ParseItems(items).value ==> ParseItems(items).value[k] == ValuesFor(items, k)
    decreases |items|
  {
    if items != [] {
      var init := items[..|items| - 1];
      ParseItemsValues(init);
      ParseItemsKeys(init);
      ParseItemsPairs(init);
      var m := ParseItems(init).value;
      forall k | k in ParseItems(items).value ensures ParseItems(items).value[k] == ValuesFor(items, k) {
        if k !in m {
          ValuesForAbsent(init, k);
        }
      }
    }
  }

  lemma {:induction false} ValuesForAbsent(items: seq<Item>, key: string)
    requires forall i :: 0 <= i < |items| ==> items[i].Pair? && items[i].key != key
    ensures ValuesFor(items, key) == []
    decreases |items|
  {
    if items != [] {
      ValuesForAbsent(items[..|items| - 1], key);
    }
  }

  /** The number of values over all keys. */
  ghost function Total(m: Pubs): nat
    decreases |m|
  {
    if m == map[] then 0 else var k :| k in m; |m[k]| + Total(m - {k})
  }

  lemma {:induction false} TotalRemove(m: Pubs, k: string)
    requires k in m
    ensures Total(m) == |m[k]| + Total(m - {k})
    decreases |m|
  {
    var j :| j in m && Total(m) == |m[j]| + Total(m - {j});
    if j != k {
      assert |m - {j}| < |m| by { assert (m - {j}).Keys == m.Keys - {j}; }
      assert |m - {k}| < |m| by { assert (m - {k}).Keys == m.Keys - {k}; }
      TotalRemove(m - {j}, k);
      TotalRemove(m - {k}, j);
      assert (m - {j}) - {k} == (m - {k}) - {j};
    }
  }

  lemma TotalAdd(m: Pubs, key: string, value: string)
    ensures Total(AddValue(m, key, value)) == Total(m) + 1
  {
    var m' := AddValue(m, key, value);
    TotalRemove(m', key);
    if key in m {
      TotalRemove(m, key);
      assert m' - {key} == m - {key};
    } else {
      assert m' - {key} == m;
    }
  }

  /** Every item contributes exactly one value: the values number as many as the items. */
  lemma {:induction false} ParseItemsTotal(items: seq<Item>)
    requires ParseItems(items).Success?
    ensures Total(ParseItems(items).value) == |items|
    decreases |items|
  {
    if items != [] {
      var init := items[..|items| - 1];
      var last := items[|items| - 1];
      ParseItemsTotal(init);
      TotalAdd(ParseItems(init).value, last.key, last.value);
    } else {
      assert Total(map[]) == 0;
    }
  }

  // ---------------------------------------------------------------- find_taxid

  /** The three `taxid_type` patterns of `get_taxid_from_mitab`. */
  datatype TaxidType = Digits | Text | Full

  /** The `taxid_type` names the method accepts; any other name raises ValueError. */
  function TaxidTypeOf(name: string): (r: Option<TaxidType>)
    ensures r.Some? <==> name in {"digits", "text", "full"}
  {
    if name == "digits" then Some(Digits) else if name == "text" then Some(Text)
    else if name == "full" then Some(Full) else None
  }

  /** The character classes the patterns repeat: `\d`, `\s`, `[^)]` and `.` (which excludes a newline). */
  datatype Class = DigitClass | SpaceClass | NotClose | NotNewline

  predicate InClass(c: char, cls: Class)
  {
    match cls
    case DigitClass => IsDigit(c)
    case SpaceClass => IsSpace(c)
    case NotClose => c != ')'
    case NotNewline => c != '\n'
  }

  /** The length of the longest prefix of `s` inside the class: what a greedy repetition takes. */
  function Run(s: string, cls: Class): (n: nat)
    ensures n <= |s|
    ensures forall i :: 0 <= i < n ==> InClass(s[i], cls)
    ensures n < |s| ==> !InClass(s[n], cls)
    decreases |s|
  {
    if s != [] && InClass(s[0], cls) then 1 + Run(s[1..], cls) else 0
  }

  const Tag: string := "taxid:"

  /** `s` starts with the literal `taxid:`. */
  predicate Tagged(s: string) { |s| >= |Tag| && s[..|Tag|] == Tag }

  predicate AllIn(s: string, cls: Class) { forall i :: 0 <= i < |s| ==> InClass(s[i], cls) }

  /** `s` continues, after its first `n` characters, with a character outside the class, or ends. */
  predicate StopsAt(s: string, n: nat, cls: Class) { n == |s| || (n < |s| && !InClass(s[n], cls)) }

  /** The regular-expression reading of `taxid:(\d+)` matching at the start of `s` with group `v`. */
  predicate DigitsMatch(s: string, v: string)
  {
    |Tag| + |v| <= |s| && s[..|Tag| + |v|] == Tag + v && v != [] && AllIn(v, DigitClass) && StopsAt(s, |Tag| + |v|, DigitClass)
  }

  /** `[^)]+` followed by anything but `)`: the group `v` of the text pattern, read at the start of `x`. */
  predicate GroupMatch(x: string, v: string)
  {
    v != [] && |v| <= |x| && x[..|v|] == v && AllIn(v, NotClose) && StopsAt(x, |v|, NotClose)
  }

  /** `\s*\(([^)]+)` at the start of `u`: whitespace `w`, an opening parenthesis, then the group `v`. */
  predicate ParenMatch(u: string, w: string, v: string)
  {
    |w| < |u| && u[..|w|] == w && AllIn(w, SpaceClass) && u[|w|] == '(' && GroupMatch(u[|w| + 1..], v)
  }

  /** The regular-expression reading of `taxid:\d+\s*\(([^)]+)` matching at the start of `s`: the tag,
    * then the digits `d`, then whitespace `w`, an opening parenthesis and the group `v`. */
  predicate TextMatch(s: string, d: string, w: string, v: string)
  {
    Tagged(s) && DigitsParenMatch(s[|Tag|..], d, w, v)
  }

  /** `\d+\s*\(([^)]+)` at the start of `t`: the nonempty digits `d`, then what `ParenMatch` reads. */
  predicate DigitsParenMatch(t: string, d: string, w: string, v: string)
  {
    d != [] && |d| <= |t| && t[..|d|] == d && AllIn(d, DigitClass) && ParenMatch(t[|d|..], w, v)
  }

  /** The regular-expression reading of `taxid:(.*)` matching at the start of `s` with group `v`. */
  predicate FullMatch(s: string, v: string)
  {
    |Tag| + |v| <= |s| && s[..|Tag| + |v|] == Tag + v && AllIn(v, NotNewline) && StopsAt(s, |Tag| + |v|, NotNewline)
  }

  /** `taxid:(\d+)` tried at the start of `s`. */
  function DigitsAt(s: string): Option<string>
  {
    if !Tagged(s) then None
    else
      var t := s[|Tag|..];
      var n := Run(t, DigitClass);
      if n == 0 then None else Some(t[..n])
  }

  /** `taxid:\d+\s*\(([^)]+)` tried at the start of `s`, one piece of the pattern after the other. */
  function TextAt(s: string): Option<string>
  {
    if Tagged(s) then AfterTag(s[|Tag|..]) else None
  }

  function AfterTag(t: string): Option<string>
  {
    var d := Run(t, DigitClass);
    if d == 0 then None else AfterDigits(t[d..])
  }

  function AfterDigits(u: string): Option<string>
  {
    var w := Run(u, SpaceClass);
    if w < |u| && u[w] == '(' then InParens(u[w + 1..]) else None
  }

  function InParens(x: string): Option<string>
  {
    var k := Run(x, NotClose);
    if k == 0 then None else Some(x[..k])
  }

  /** `taxid:(.*)` tried at the start of `s`. */
  function FullAt(s: string): Option<string>
  {
    if !Tagged(s) then None
    else
      var t := s[|Tag|..];
      Some(t[..Run(t, NotNewline)])
  }

  function MatchAt(mode: TaxidType, s: string): Option<string>
  {
    match mode
    case Digits => DigitsAt(s)
    case Text => TextAt(s)
    case Full => FullAt(s)
  }

  /** `re.search(pattern, row).group(1)`, or None: the match at the leftmost position where one starts. */
  function Search(mode: TaxidType, s: string): Option<string>
    decreases |s|
  {
    if MatchAt(mode, s).Some? || s == [] then MatchAt(mode, s) else Search(mode, s[1..])
  }

  /** The greedy run is the only run that stops outside the class. */
  lemma {:induction false} RunUnique(s: string, cls: Class, n: nat)
    requires n <= |s| && AllIn(s[..n], cls) && StopsAt(s, n, cls)
    ensures Run(s, cls) == n
    decreases n
  {
    if n > 0 {
      assert s[..n][0] == s[0];
      assert s[1..][..n - 1] == s[..n][1..];
      RunUnique(s[1..], cls, n - 1);
    }
  }

  /** `DigitsAt` finds exactly the match the pattern describes. */
  lemma DigitsAtSpec(s: string, v: string)
    ensures DigitsAt(s) == Some(v) <==> DigitsMatch(s, v)
  {
    if DigitsMatch(s, v) {
      var t := s[|Tag|..];
      assert s[..|Tag|] == (Tag + v)[..|Tag|];
      assert t[..|v|] == v;
      RunUnique(t, DigitClass, |v|);
    }
    if DigitsAt(s) == Some(v) {
      var t := s[|Tag|..];
      assert s[..|Tag| + |v|] == s[..|Tag|] + t[..|v|];
    }
  }

  /** `FullAt` finds exactly the match the pattern describes. */
  lemma FullAtSpec(s: string, v: string)
    ensures FullAt(s) == Some(v) <==> FullMatch(s, v)
  {
    if FullMatch(s, v) {
      var t := s[|Tag|..];
      assert s[..|Tag|] == (Tag + v)[..|Tag|];
      assert t[..|v|] == v;
      RunUnique(t, NotNewline, |v|);
    }
    if FullAt(s) == Some(v) {
      var t := s[|Tag|..];
      assert s[..|Tag| + |v|] == s[..|Tag|] + t[..|v|];
    }
  }

  lemma InParensSpec(x: string, v: string)
    ensures InParens(x) == Some(v) <==> GroupMatch(x, v)
  {
    if GroupMatch(x, v) {
      RunUnique(x, NotClose, |v|);
    }
  }

  lemma AfterDigitsSpec(u: string, v: string)
    ensures AfterDigits(u) == Some(v) <==> exists w :: ParenMatch(u, w, v)
  {
    if AfterDigits(u) == Some(v) {
      var w := u[..Run(u, SpaceClass)];
      InParensSpec(u[|w| + 1..], v);
      assert ParenMatch(u, w, v);
    }
    if exists w :: ParenMatch(u, w, v) {
      var w :| ParenMatch(u, w, v);
      RunUnique(u, SpaceClass, |w|);
      InParensSpec(u[|w| + 1..], v);
    }
  }

  lemma AfterTagSpec(t: string, v: string)
    ensures AfterTag(t) == Some(v) <==> exists d, w :: DigitsParenMatch(t, d, w, v)
  {
    if AfterTag(t) == Some(v) {
      var d := t[..Run(t, DigitClass)];
      AfterDigitsSpec(t[|d|..], v);
      var w :| ParenMatch(t[|d|..], w, v);
      assert DigitsParenMatch(t, d, w, v);
    }
    if exists d, w :: DigitsParenMatch(t, d, w, v) {
      var d, w :| DigitsParenMatch(t, d, w, v);
      var u := t[|d|..];
      assert u[0] == (if w == [] then '(' else w[0]);
      RunUnique(t, DigitClass, |d|);
      AfterDigitsSpec(u, v);
    }
  }

  /** `TextAt` finds exactly the match the pattern describes. */
  lemma TextAtSpec(s: string, v: string)
    ensures TextAt(s) == Some(v) <==> exists d, w :: TextMatch(s, d, w, v)
  {
    if Tagged(s) {
      var t := s[|Tag|..];
      AfterTagSpec(t, v);
      if AfterTag(t) == Some(v) {
        var d, w :| DigitsParenMatch(t, d, w, v);
        assert TextMatch(s, d, w, v);
      }
    }
  }

  /** The position `re.search` stops at: the first where a match starts, or the end of the cell. */
  function Leftmost(mode: TaxidType, s: string): (p: nat)
    ensures p <= |s|
    decreases |s|
  {
    if MatchAt(mode, s).Some? || s == [] then 0 else 1 + Leftmost(mode, s[1..])
  }

  /** What `re.search` reports is the match, if any, at that position. */
  lemma {:induction false} SearchAtLeftmost(mode: TaxidType, s: string)
    ensures Search(mode, s) == MatchAt(mode, s[Leftmost(mode, s)..])
    decreases |s|
  {
    if MatchAt(mode, s).Some? || s == [] {
      assert s[0..] == s;
    } else {
      SearchAtLeftmost(mode, s[1..]);
      assert s[Leftmost(mode, s)..] == s[1..][Leftmost(mode, s[1..])..];
    }
  }

  /** No match starts before that position. */
  lemma {:induction false} NoneBeforeLeftmost(mode: TaxidType, s: string, q: nat)
    requires q < Leftmost(mode, s)
    ensures MatchAt(mode, s[q..]).None?
    decreases q
  {
    if q == 0 {
      assert s[0..] == s;
    } else {
      NoneBeforeLeftmost(mode, s[1..], q - 1);
      assert s[q..] == s[1..][q - 1..];
    }
  }

  /** What `re.search` reports is the match at the leftmost position where one starts. */
  lemma SearchFirst(mode: TaxidType, s: string)
    ensures Search(mode, s).Some? ==>
      exists p :: 0 <= p <= |s| && Search(mode, s) == MatchAt(mode, s[p..]) && forall q :: 0 <= q < p ==> MatchAt(mode, s[q..]).None?
  {
    var p := Leftmost(mode, s);
    SearchAtLeftmost(mode, s);
    forall q | 0 <= q < p ensures MatchAt(mode, s[q..]).None? {
      NoneBeforeLeftmost(mode, s, q);
    }
  }

  /** A match starting at `p` is enough for `re.search` to find one. */
  lemma {:induction false} SearchReaches(mode: TaxidType, s: string, p: nat)
    requires p <= |s| && MatchAt(mode, s[p..]).Some?
    ensures Search(mode, s).Some?
    decreases p
  {
    if p > 0 && MatchAt(mode, s).None? {
      assert s[p..] == s[1..][p - 1..];
      SearchReaches(mode, s[1..], p - 1);
    }
  }

  /** `re.search` finds a match exactly when one starts somewhere in the cell. */
  lemma SearchFinds(mode: TaxidType, s: string)
    ensures Search(mode, s).Some? <==> exists p :: 0 <= p <= |s| && MatchAt(mode, s[p..]).Some?
  {
    SearchFirst(mode, s);
    if exists p :: 0 <= p <= |s| && MatchAt(mode, s[p..]).Some? {
      var p :| 0 <= p <= |s| && MatchAt(mode, s[p..]).Some?;
      SearchReaches(mode, s, p);
    }
  }

  /** The default `digits` mode on the usual cell. */
  lemma HumanDigits()
    ensures Search(Digits, "taxid:9606(human)") == Some("9606")
  {
    var s := "taxid:9606(human)";
    assert s[..6] == Tag;
    var t := s[6..];
    assert t == "9606(human)";
    assert t[..4] == "9606";
    RunUnique(t, DigitClass, 4);
  }

  const Quoted: string := "taxid:9(\"a (b)\")"

  /** A cell shaped like the example of the method's documentation, in the three modes: the digits
    * after the tag; the text after `(`, which keeps the opening quote and stops at the first `)`;
    * and everything after `taxid:`. */
  lemma QuotedDigits()
    ensures Search(Digits, Quoted) == Some("9")
  {
    assert Quoted[..6] == Tag;
    var t := Quoted[6..];
    assert t[..1] == "9" && t[1] == '(';
    RunUnique(t, DigitClass, 1);
  }

  lemma QuotedText()
    ensures Search(Text, Quoted) == Some("\"a (b")
  {
    QuotedTextAt();
  }

  lemma QuotedTextAt()
    ensures TextAt(Quoted) == Some("\"a (b")
  {
    assert Quoted[..6] == Tag;
    var t := Quoted[6..];
    assert t[..1] == "9" && t[1] == '(';
    var u := t[1..];
    assert u[..0] == "" && u[0] == '(';
    var x := u[1..];
    assert x == "\"a (b)\")";
    assert GroupMatch(x, "\"a (b");
    assert ParenMatch(u, "", "\"a (b");
    assert DigitsParenMatch(t, "9", "", "\"a (b");
    AfterTagSpec(t, "\"a (b");
  }

  lemma QuotedFull()
    ensures Search(Full, Quoted) == Some("9(\"a (b)\")")
  {
    assert Quoted[..6] == Tag;
    var t := Quoted[6..];
    assert t == "9(\"a (b)\")";
    assert t[..|t|] == t;
    RunUnique(t, NotNewline, |t|);
  }
}
