// The counting helpers of the admin dashboard and fairness report
// (backend/routes/admin.js:12-16, :28-30, :347-352): `parseCount` over the
// row a count query returns, the placement rate and the rate per district.

module AdminStats {
  import opened Common
  import opened Json
  import opened EngineScoring

  // ---------------------------------------------------------------------
  // parseCount
  // ---------------------------------------------------------------------

  /** A column value as the database driver hands it over. */
  datatype DbVal = Undefined | NullVal | NumVal(n: int) | StrVal(s: string) | BoolVal(b: bool)

  /** A result row: its properties, in order. */
  type Row = seq<(string, DbVal)>

  /** `row[key]`: the first property with that name, or undefined. */
  function Get(row: Row, key: string): (v: DbVal)
    ensures (forall k :: 0 <= k < |row| ==> row[k].0 != key) ==> v.Undefined?
    ensures !v.Undefined? ==> exists k :: 0 <= k < |row| && row[k] == (key, v)
  {
    if row == [] then Undefined
    else if row[0].0 == key then row[0].1
    else Get(row[1..], key)
  }

  /** `Object.values(row)[0]` */
  function FirstValue(row: Row): DbVal {
    if row == [] then Undefined else row[0].1
  }

  /** Neither null nor undefined. */
  predicate Present(v: DbVal) {
    !v.Undefined? && !v.NullVal?
  }

  /** `a ?? b` */
  function Coalesce(a: DbVal, b: DbVal): DbVal {
    if Present(a) then a else b
  }

  /** `row.count ?? row["count(*)"] ?? Object.values(row)[0]` */
  function CountValue(row: Row): DbVal {
    Coalesce(Coalesce(Get(row, "count"), Get(row, "count(*)")), FirstValue(row))
  }

  /** The exponent of a decimal literal: empty, or e/E, a sign and digits. */
  predicate ExponentPart(e: string) {
    e == [] || ((e[0] == 'e' || e[0] == 'E') && var d := StripSign(e[1..]).1; d != [] && AllDigits(d))
  }

  /** An unsigned StrDecimalLiteral: Infinity, or digits with an optional
      fraction and exponent, with at least one digit around the point. */
  predicate UnsignedDecimalLiteral(u: string) {
    u == "Infinity" ||
    (var a := DigitPrefix(u, 10);
     var rest := u[|a|..];
     if rest != [] && rest[0] == '.' then
       var b := DigitPrefix(rest[1..], 10);
       (a != [] || b != []) && ExponentPart(rest[1..][|b|..])
     else a != [] && ExponentPart(rest))
  }

  /** A 0x, 0o or 0b literal with at least one digit of its radix. */
  predicate NonDecimalLiteral(t: string) {
    |t| > 2 && t[0] == '0' &&
    (((t[1] == 'x' || t[1] == 'X') && AllRadixDigits(t[2..], 16)) ||
     ((t[1] == 'o' || t[1] == 'O') && AllRadixDigits(t[2..], 8)) ||
     ((t[1] == 'b' || t[1] == 'B') && AllRadixDigits(t[2..], 2)))
  }

  /** Number(s) is not NaN: the trimmed text is empty or a numeric literal. */
  predicate IsNumericString(s: string) {
    var t := Trim(s);
    t == [] || NonDecimalLiteral(t) || UnsignedDecimalLiteral(StripSign(t).1)
  }

  /** `isNaN(v)`: Number(v) is NaN. */
  predicate IsNaNOf(v: DbVal) {
    match v
    case Undefined => true
    case NullVal => false
    case NumVal(_) => false
    case BoolVal(_) => false
    case StrVal(s) => !IsNumericString(s)
  }

  /** `parseInt(v)`, which first converts `v` to a string; None is NaN. */
  function ParseIntOf(v: DbVal): Option<int> {
    match v
    case Undefined => ParseIntJs("undefined")
    case NullVal => ParseIntJs("null")
    case NumVal(n) => ParseIntJs(IntToString(n))
    case BoolVal(b) => ParseIntJs(if b then "true" else "false")
    case StrVal(s) => ParseIntJs(s)
  }

  /** parseCount as written; None stands for the NaN it can return. */
  function ParseCount(row: Option<Row>): Option<int> {
    match row
    case None => Some(0)
    case Some(r) =>
      var val := CountValue(r);
      if IsNaNOf(val) then Some(0) else ParseIntOf(val)
  }

  /** The count column is read first, then "count(*)", then the first
      column; a null or missing one is skipped. */
  lemma CountValueOrder(row: Row)
    ensures Present(Get(row, "count")) ==> CountValue(row) == Get(row, "count")
    ensures !Present(Get(row, "count")) && Present(Get(row, "count(*)")) ==> CountValue(row) == Get(row, "count(*)")
    ensures !Present(Get(row, "count")) && !Present(Get(row, "count(*)")) ==> CountValue(row) == FirstValue(row)
  {
  }

  lemma ParseIntOfNumber(n: int)
    ensures ParseIntOf(NumVal(n)) == Some(n)
  {
    var s := IntToString(n);
    assert ParseIntOf(NumVal(n)) == ParseIntJs(s);
    if n < 0 {
      ParseIntOfNegativeNumeral(-n, []);
      assert s == "-" + NatToString(-n) + [];
    } else {
      ParseIntOfNumeral(n, []);
      assert s == NatToString(n) + [];
    }
  }

  /** A missing row counts 0. */
  lemma ParseCountMissing()
    ensures ParseCount(None) == Some(0)
  {
  }

  /** A numeric count is returned as it is. */
  lemma ParseCountOfNumber(row: Row, n: int)
    requires CountValue(row) == NumVal(n)
    ensures ParseCount(Some(row)) == Some(n)
  {
    ParseIntOfNumber(n);
  }

  lemma DigitsAreDecimalLiteral(d: string)
    requires d != [] && AllDigits(d)
    ensures UnsignedDecimalLiteral(d)
  {
    DigitPrefixAll(d, []);
    assert d + [] == d;
    assert d[|d|..] == [];
  }

  lemma DecimalNumeralIsNumeric(n: nat)
    ensures IsNumericString(NatToString(n))
  {
    var d := NatToString(n);
    DigitNotSpace(d[0]);
    DigitNotSpace(d[|d| - 1]);
    TrimPadded([], d, []);
    assert [] + d + [] == d;
    DigitFirst(d);
    DigitsAreDecimalLiteral(d);
  }

  /** A count delivered as the text of a decimal numeral is its value. */
  lemma ParseCountOfNumeral(row: Row, n: nat)
    requires CountValue(row) == StrVal(NatToString(n))
    ensures ParseCount(Some(row)) == Some(n)
  {
    DecimalNumeralIsNumeric(n);
    ParseIntOfNumeral(n, []);
    assert NatToString(n) + [] == NatToString(n);
  }

  /** A text whose first visible character is a lower-case letter counts 0. */
  lemma ParseCountOfWord(row: Row, s: string)
    requires CountValue(row) == StrVal(s)
    requires var t := Trim(s); t != [] && 'a' <= t[0] <= 'z'
    ensures ParseCount(Some(row)) == Some(0)
  {
    var t := Trim(s);
    assert StripSign(t).1 == t;
    assert RadixDigit(t[0], 10).None?;
    assert DigitPrefix(t, 10) == [];
    assert t != "Infinity";
  }

  /** A missing count property with no other column counts 0. */
  lemma ParseCountOfEmptyRow()
    ensures ParseCount(Some([])) == Some(0)
  {
  }

  /** isNaN lets through null, booleans and the empty text, whose parseInt
      is NaN: parseCount then returns NaN instead of a number. */
  lemma ParseCountNaN(row: Row)
    requires CountValue(row) == NullVal || CountValue(row).BoolVal? || CountValue(row) == StrVal("")
    ensures ParseCount(Some(row)) == None
  {
    var v := CountValue(row);
    assert !IsNaNOf(v) ==> ParseCount(Some(row)) == ParseIntOf(v);
    match v
    case NullVal =>
      WordIsNaN("null");
    case BoolVal(b) =>
      var w := if b then "true" else "false";
      assert w[0] == 't' || w[0] == 'f';
      WordIsNaN(w);
    case StrVal(s) =>
      EmptyIsNaN();
  }

  lemma WordIsNaN(w: string)
    requires w != [] && 'a' <= w[0] <= 'z'
    ensures ParseIntJs(w) == None
  {
    assert !IsJsSpace(w[0]);
    ParseIntNaN(w);
  }

  /** Number("") is 0 but parseInt("") is NaN. */
  lemma EmptyIsNaN()
    ensures !IsNaNOf(StrVal(""))
    ensures ParseIntOf(StrVal("")) == None
  {
    assert Trim("") == [];
    ParseIntNaN("");
  }

  /** A numeric text with no digit at its start passes isNaN too: Number
      reads a blank text as 0, "Infinity" as infinity and ".5" as 0.5, while
      parseInt finds no leading digit and gives NaN. */
  lemma ParseCountDigitlessNumeric(row: Row, s: string)
    requires CountValue(row) == StrVal(s) && IsNumericString(s)
    requires var t := TrimStart(s); t == [] || (!IsDigit(t[0]) && t[0] != '-' && t[0] != '+')
    ensures ParseCount(Some(row)) == None
  {
    assert ParseCount(Some(row)) == ParseIntJs(s);
    ParseIntNaN(s);
  }

  /** A count column holding just a text. */
  lemma CountColumnText(x: string)
    ensures CountValue([("count", StrVal(x))]) == StrVal(x)
  {
    assert Get([("count", StrVal(x))], "count") == StrVal(x);
  }

  /** A blank count text yields NaN. */
  lemma ParseCountOfBlank()
    ensures ParseCount(Some([("count", StrVal(" "))])) == None
  {
    assert IsJsSpace(' ');
    TrimPadded([' '], [], []);
    assert [' '] + [] + [] == " ";
    CountColumnText(" ");
    ParseCountDigitlessNumeric([("count", StrVal(" "))], " ");
  }

  /** A count text "Infinity" yields NaN. */
  lemma ParseCountOfInfinity()
    ensures ParseCount(Some([("count", StrVal("Infinity"))])) == None
  {
    var inf := "Infinity";
    assert !IsJsSpace(inf[0]) && !IsJsSpace(inf[|inf| - 1]);
    TrimPadded([], inf, []);
    assert [] + inf + [] == inf;
    CountColumnText(inf);
    ParseCountDigitlessNumeric([("count", StrVal(inf))], inf);
  }

  /** A count text ".5" yields NaN. */
  lemma ParseCountOfPointFive()
    ensures ParseCount(Some([("count", StrVal(".5"))])) == None
  {
    var half := ".5";
    assert !IsJsSpace(half[0]) && !IsJsSpace(half[|half| - 1]);
    TrimPadded([], half, []);
    assert [] + half + [] == half;
    PointFiveIsDecimalLiteral();
    CountColumnText(half);
    ParseCountDigitlessNumeric([("count", StrVal(half))], half);
  }

  lemma PointFiveIsDecimalLiteral()
    ensures UnsignedDecimalLiteral(".5")
  {
    var half := ".5";
    assert RadixDigit('.', 10).None?;
    assert DigitPrefix(half, 10) == [];
    assert half[0..] == half;
    assert half[1..] == "5";
    DigitPrefixAll("5", []);
    assert "5" + [] == "5";
    assert "5"[1..] == [];
  }

  /** parseCount as evidently intended: a number in every case, 0 when the
      value is not a count. */
  function ParseCountOrZero(row: Option<Row>): (r: int)
    ensures ParseCount(row).Some? ==> r == ParseCount(row).value
    ensures ParseCount(row).None? ==> r == 0
  {
    match ParseCount(row)
    case None => 0
    case Some(n) => n
  }

  /** The corrected parseCount gives 0 on the inputs that make the one as
      written return NaN. */
  lemma ParseCountOrZeroNaN(row: Row)
    requires CountValue(row) == NullVal || CountValue(row).BoolVal? || CountValue(row) == StrVal("")
    ensures ParseCountOrZero(Some(row)) == 0
  {
    ParseCountNaN(row);
  }

  // ---------------------------------------------------------------------
  // Rates
  // ---------------------------------------------------------------------

  /** `total > 0 ? Math.round(placed / total * 100) : 0` */
  function PlacementRate(placed: int, total: int): (r: int)
    ensures total <= 0 ==> r == 0
    ensures total > 0 ==> 2 * total * r <= 200 * placed + total < 2 * total * (r + 1)
  {
    if total > 0 then RoundPercent(placed, total) else 0
  }

  /** With at most as many placed as students, the rate is a percentage. */
  lemma PlacementRateBounds(placed: int, total: int)
    requires 0 <= placed <= total
    ensures 0 <= PlacementRate(placed, total) <= 100
    ensures placed == total && total > 0 ==> PlacementRate(placed, total) == 100
    ensures placed == 0 ==> PlacementRate(placed, total) == 0
  {
    if total > 0 {
      var r := PlacementRate(placed, total);
      var t2 := 2 * total;
      if r > 100 {
        MulLe(t2, 101, r);
        assert false;
      }
      if r < 0 {
        MulLe(t2, r + 1, 0);
        assert false;
      }
      if placed == total && r < 100 {
        MulLe(t2, r + 1, 100);
        assert false;
      }
      if placed == 0 && r > 0 {
        MulLe(t2, 1, r);
        assert false;
      }
    }
  }

  lemma MulLe(a: int, b: int, c: int)
    requires a >= 0 && b <= c
    ensures a * b <= a * c
  {
    assert a * c - a * b == a * (c - b);
  }

  datatype DistrictTotal = DistrictTotal(district: Option<string>, total: nat)
  datatype DistrictPlaced = DistrictPlaced(district: Option<string>, placed: nat)
  datatype DistrictRate = DistrictRate(name: Option<string>, rate: int)

  /** `placed.find(x => x.district === d)?.placed` */
  function FindPlaced(placed: seq<DistrictPlaced>, d: Option<string>): (r: Option<nat>)
    ensures r.None? <==> forall k :: 0 <= k < |placed| ==> placed[k].district != d
    ensures r.Some? ==> exists k :: 0 <= k < |placed| && placed[k].district == d && placed[k].placed == r.value
  {
    if placed == [] then None
    else if placed[0].district == d then Some(placed[0].placed)
    else FindPlaced(placed[1..], d)
  }

  /** `find` returns the first row for the district. */
  lemma {:induction false} FindPlacedFirst(placed: seq<DistrictPlaced>, d: Option<string>, k: nat)
    requires k < |placed| && placed[k].district == d
    requires forall j :: 0 <= j < k ==> placed[j].district != d
    ensures FindPlaced(placed, d) == Some(placed[k].placed)
  {
    if k > 0 {
      FindPlacedFirst(placed[1..], d, k - 1);
    }
  }

  /** The rate of one district: `t.total ? Math.round((p?.placed || 0) /
      t.total * 100) : 0`. */
  function DistrictRateOf(t: DistrictTotal, placed: seq<DistrictPlaced>): int {
    var p := match FindPlaced(placed, t.district) case None => 0 case Some(n) => n;
    PlacementRate(p, t.total)
  }

  /** `districtData`: one entry per district of the totals, in order. */
  function DistrictRates(totals: seq<DistrictTotal>, placed: seq<DistrictPlaced>): (r: seq<DistrictRate>)
    ensures |r| == |totals|
    ensures forall i :: 0 <= i < |r| ==> r[i].name == totals[i].district
  {
    seq(|totals|, i requires 0 <= i < |totals| => DistrictRate(totals[i].district, DistrictRateOf(totals[i], placed)))
  }

  /** A district with no placed row, or with no students, gets 0. */
  lemma DistrictRateZero(t: DistrictTotal, placed: seq<DistrictPlaced>)
    requires t.total == 0 || forall k :: 0 <= k < |placed| ==> placed[k].district != t.district
    ensures DistrictRateOf(t, placed) == 0
  {
    if t.total > 0 {
      PlacementRateBounds(0, t.total);
    }
  }

  /** Otherwise the rate is the rounded percentage of the first placed row
      for the district. */
  lemma DistrictRateFound(t: DistrictTotal, placed: seq<DistrictPlaced>, k: nat)
    requires t.total > 0 && k < |placed| && placed[k].district == t.district
    requires forall j :: 0 <= j < k ==> placed[j].district != t.district
    ensures var r := DistrictRateOf(t, placed);
      2 * t.total * r <= 200 * placed[k].placed + t.total < 2 * t.total * (r + 1)
  {
    FindPlacedFirst(placed, t.district, k);
  }
}
