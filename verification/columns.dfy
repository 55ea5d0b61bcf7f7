/** The grid classes that `wrapItemInColumn` puts on the column wrapper of a
    gallery item (assets/maugallery.js:46-70), without the DOM. */
module Columns {
  import opened Wrappers

  /** The five breakpoint keys of an object configuration. `Base` is the key
      `xs`, which produces the unqualified class `col-N`, the same class a plain
      number produces. */
  datatype Breakpoint = Base | Sm | Md | Lg | Xl

  /** The `columns` option. A key of an object configuration that is absent
      (undefined) or zero is falsy in the source; both are written 0 here. */
  datatype ColumnsConfig =
    | Count(n: nat)
    | PerBreakpoint(xs: nat, sm: nat, md: nat, lg: nat, xl: nat)
    | Unsupported

  /** One grid class: `col-<span>` or `col-<bp>-<span>`. */
  datatype GridClass = GridClass(bp: Breakpoint, span: nat)

  /** The two configuration errors `wrapItemInColumn` reports. */
  datatype ColumnError =
    | UnsupportedType   // `columns` is neither a number nor an object
    | NoColumnClass     // an object with no truthy breakpoint key

  /** A numeric column count must be at least 1: the source divides 12 by it. */
  predicate ValidColumns(c: ColumnsConfig) {
    c.Count? ==> c.n >= 1
  }

  /** The position of a breakpoint in the order the source tests the keys. */
  function Rank(b: Breakpoint): nat {
    match b
    case Base => 0
    case Sm => 1
    case Md => 2
    case Lg => 3
    case Xl => 4
  }

  /** The value of one breakpoint key of an object configuration. */
  function Key(c: ColumnsConfig, b: Breakpoint): nat
    requires c.PerBreakpoint?
  {
    match b
    case Base => c.xs
    case Sm => c.sm
    case Md => c.md
    case Lg => c.lg
    case Xl => c.xl
  }

  /** `Math.ceil(12 / n)`: the number of the twelve grid units one of `n`
      columns spans. */
  function Span(n: nat): (s: nat)
    requires n >= 1
    ensures 1 <= s <= 12
    ensures s * n >= 12 && (s - 1) * n < 12
  {
    if 12 % n == 0 then 12 / n else 12 / n + 1
  }

  /** The breakpoint keys in the order the source tests them. */
  const BREAKPOINTS: seq<Breakpoint> := [Base, Sm, Md, Lg, Xl]

  /** One class per truthy key among `bps`, in the order of `bps`. */
  function KeyedClasses(c: ColumnsConfig, bps: seq<Breakpoint>): (r: seq<GridClass>)
    requires c.PerBreakpoint?
    requires forall i, j :: 0 <= i < j < |bps| ==> Rank(bps[i]) < Rank(bps[j])
    ensures forall g :: g in r ==> g.bp in bps && Key(c, g.bp) > 0 && g.span == Span(Key(c, g.bp))
    ensures forall k :: 0 <= k < |bps| && Key(c, bps[k]) > 0 ==> GridClass(bps[k], Span(Key(c, bps[k]))) in r
    ensures forall i, j :: 0 <= i < j < |r| ==> Rank(r[i].bp) < Rank(r[j].bp)
  {
    if bps == [] then []
    else
      var rest := KeyedClasses(c, bps[1..]);
      assert forall g :: g in rest ==> Rank(bps[0]) < Rank(g.bp);
      if Key(c, bps[0]) > 0 then [GridClass(bps[0], Span(Key(c, bps[0])))] + rest else rest
  }

  /** The grid classes of every column wrapper, or the reason none is made. */
  function ColumnClasses(c: ColumnsConfig): (r: Result<seq<GridClass>, ColumnError>)
    requires ValidColumns(c)
    ensures r == Failure(UnsupportedType) <==> c.Unsupported?
    ensures r == Failure(NoColumnClass) <==> c.PerBreakpoint? && forall b :: Key(c, b) == 0
    ensures c.Count? ==> r == Success([GridClass(Base, Span(c.n))])
    ensures r.Success? ==> |r.value| > 0
    ensures r.Success? ==> forall g :: g in r.value ==> 1 <= g.span <= 12
    ensures c.PerBreakpoint? && r.Success? ==>
      && (forall b :: (exists g :: g in r.value && g.bp == b) <==> Key(c, b) > 0)
      && (forall g :: g in r.value ==> g.span == Span(Key(c, g.bp)))
      && (forall i, j :: 0 <= i < j < |r.value| ==> Rank(r.value[i].bp) < Rank(r.value[j].bp))
  {
    match c
    case Count(n) => Success([GridClass(Base, Span(n))])
    case PerBreakpoint(_, _, _, _, _) =>
      var classes := KeyedClasses(c, BREAKPOINTS);
      assert forall b :: Key(c, b) > 0 ==> GridClass(b, Span(Key(c, b))) in classes by {
        forall b | Key(c, b) > 0 ensures GridClass(b, Span(Key(c, b))) in classes {
          assert BREAKPOINTS[Rank(b)] == b;
        }
      }
      assert classes != [] ==> Key(c, classes[0].bp) > 0;
      if |classes| > 0 then Success(classes) else Failure(NoColumnClass)
    case Unsupported => Failure(UnsupportedType)
  }

  /** The text prefix of a class at a breakpoint. */
  function Prefix(b: Breakpoint): string {
    match b
    case Base => "col-"
    case Sm => "col-sm-"
    case Md => "col-md-"
    case Lg => "col-lg-"
    case Xl => "col-xl-"
  }

  /** A string of decimal digits only. */
  predicate IsDigits(s: string) {
    forall i :: 0 <= i < |s| ==> '0' <= s[i] <= '9'
  }

  /** The number a string of decimal digits denotes. */
  function DigitsValue(s: string): nat
    requires IsDigits(s)
  {
    if s == [] then 0 else DigitsValue(s[..|s| - 1]) * 10 + (s[|s| - 1] as int - '0' as int)
  }

  /** The decimal digits of a natural number, as a template literal prints it. */
  function Decimal(n: nat): (s: string)
    ensures |s| >= 1 && IsDigits(s)
    ensures |s| > 1 ==> s[0] != '0'
  {
    var d := ('0' as int + n % 10) as char;
    if n < 10 then [d] else Decimal(n / 10) + [d]
  }

  /** Reading the printed digits back gives the number: `Decimal` prints
      the span itself. */
  lemma {:induction false} DecimalRoundTrip(n: nat)
    ensures DigitsValue(Decimal(n)) == n
  {
    if n >= 10 {
      DecimalRoundTrip(n / 10);
      var s := Decimal(n);
      assert s[..|s| - 1] == Decimal(n / 10);
    }
  }

  /** The class name the source writes into the wrapper's class list: the
      breakpoint's prefix followed by the decimal digits of the span. */
  function ClassName(g: GridClass): (name: string)
    ensures |name| > |Prefix(g.bp)| && name[..|Prefix(g.bp)|] == Prefix(g.bp)
    ensures IsDigits(name[|Prefix(g.bp)|..]) && DigitsValue(name[|Prefix(g.bp)|..]) == g.span
    ensures |name| > |Prefix(g.bp)| + 1 ==> name[|Prefix(g.bp)|] != '0'
  {
    DecimalRoundTrip(g.span);
    var name := Prefix(g.bp) + Decimal(g.span);
    assert name[|Prefix(g.bp)|..] == Decimal(g.span);
    assert name[|Prefix(g.bp)|] == Decimal(g.span)[0];
    name
  }
}
