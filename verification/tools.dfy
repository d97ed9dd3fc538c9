/** The three local tools the agent offers the remote model (`sum`, `prime`,
    `getCryptoPrice`), the registry that names them, and the parameters each
    tool declares. The agent only sends those declarations to the remote model
    and never checks a call against them; here they define which argument
    records a tool can use as intended. */
module Tools {
  import opened Wrappers
  import Ascii

  // ---------------------------------------------------------------- sum

  /** The `sum` tool: the sum of its two arguments. */
  function Sum(num1: int, num2: int): (r: int)
    ensures r == num1 + num2
  {
    num1 + num2
  }

  // ---------------------------------------------------------------- prime

  predicate Divides(d: int, n: int) {
    d != 0 && n % d == 0
  }

  /** The textbook definition: at least 2, and no factor strictly between 1 and itself. */
  ghost predicate IsPrime(n: int) {
    n >= 2 && forall d :: 2 <= d < n ==> !Divides(d, n)
  }

  /** No candidate `d >= lo` with `d * d <= n` divides `n`. */
  ghost predicate NoFactorFrom(n: int, lo: int) {
    forall d :: lo <= d && d * d <= n ==> !Divides(d, n)
  }

  /** No factor `d` with `2 <= d < hi`. */
  ghost predicate NoFactorBelow(n: int, hi: int) {
    forall d :: 2 <= d < hi ==> !Divides(d, n)
  }

  lemma MulMonotone(c: int, a: int, b: int)
    requires 0 <= c
    ensures a <= b ==> c * a <= c * b
  {
  }

  lemma SquareMonotone(a: int, b: int)
    requires 0 <= a <= b
    ensures a * a <= b * b
  {
    MulMonotone(a, a, b);
    MulMonotone(b, a, b);
  }

  /** A product that is a multiple of one factor leaves no remainder. */
  lemma MultipleHasNoRemainder(e: int, d: int)
    requires e > 0
    ensures (e * d) % e == 0
  {
    var n := e * d;
    var q, r := n / e, n % e;
    var k := d - q;
    assert n == e * q + r && 0 <= r < e;
    assert e * k == r;
    MulMonotone(e, 1, k);
    MulMonotone(e, k, -1);
    assert k == 0;
  }

  /** One step of the trial-division loop: tries `i`, `i + 1`, ... while `i * i <= n`
      and reports whether no tried candidate divides `n`. */
  function TrialDivision(n: int, i: int): (r: bool)
    requires 2 <= i
    ensures r <==> NoFactorFrom(n, i)
    decreases n - i
  {
    if i * i > n then
      assert forall d :: i <= d ==> i * i <= d * d by {
        forall d | i <= d { SquareMonotone(i, d); }
      }
      true
    else if n % i == 0 then
      assert Divides(i, n);
      false
    else
      assert i < i * i;
      TrialDivision(n, i + 1)
  }

  /** A factor `d` of a positive `n` with `2 <= d < n` has a cofactor `n / d` that
      is also a factor at least 2. */
  lemma CofactorDivides(n: int, d: int)
    requires 2 <= d < n && Divides(d, n)
    ensures d * (n / d) == n
    ensures 2 <= n / d && Divides(n / d, n)
  {
    var e := n / d;
    assert n == d * e;
    MulMonotone(d, e, 1);
    MultipleHasNoRemainder(e, d);
  }

  /** Of a factor and its cofactor, one is at most the square root. */
  lemma SmallerOfFactorPair(n: int, d: int, e: int)
    requires 2 <= d && 2 <= e && d * e == n
    ensures d * d <= n || e * e <= n
  {
    MulMonotone(d, d, e);
    MulMonotone(e, e, d);
  }

  /** For `n >= 2`, having no factor up to the square root is the same as being prime. */
  lemma TrialDivisionDecidesPrimality(n: int)
    requires n >= 2
    ensures NoFactorFrom(n, 2) <==> IsPrime(n)
  {
    if IsPrime(n) {
      forall d | 2 <= d && d * d <= n
        ensures !Divides(d, n)
      {
        assert d < d * d;
      }
    }
    if NoFactorFrom(n, 2) && !IsPrime(n) {
      var d :| 2 <= d < n && Divides(d, n);
      CofactorDivides(n, d);
      SmallerOfFactorPair(n, d, n / d);
    }
  }

  /** The `prime` tool: false below 2, otherwise trial division from 2. */
  function Prime(num: int): (r: bool)
    ensures r <==> IsPrime(num)
  {
    if num < 2 then
      false
    else
      TrialDivisionDecidesPrimality(num);
      TrialDivision(num, 2)
  }

  /** Small primes are accepted and small composites and numbers below 2 rejected. */
  lemma PrimeExamples()
    ensures Prime(2) && Prime(3) && Prime(5) && Prime(7) && Prime(11) && Prime(97)
    ensures !Prime(4) && !Prime(6) && !Prime(9) && !Prime(100)
    ensures !Prime(1) && !Prime(0) && !Prime(-7)
  {
  }

  /** The `prime` tool as the loop it is written as: return false on the first
      divisor found while `i * i <= num`, true once the candidates run out. */
  method PrimeLoop(num: int) returns (r: bool)
    ensures r <==> IsPrime(num)
    ensures r == Prime(num)
  {
    if num < 2 {
      return false;
    }
    var i := 2;
    while i * i <= num
      invariant 2 <= i
      invariant NoFactorBelow(num, i)
      decreases num - i
    {
      if num % i == 0 {
        assert i < i * i;
        assert Divides(i, num) && i < num;
        return false;
      }
      assert i < i * i;
      i := i + 1;
    }
    forall d | 2 <= d && d * d <= num
      ensures !Divides(d, num)
    {
      if d >= i {
        SquareMonotone(i, d);
      }
    }
    TrialDivisionDecidesPrimality(num);
    return true;
  }

  // ---------------------------------------------------------------- getCryptoPrice

  const NotFound: string := "Price not found"

  /** The fixed demo price table. */
  const Prices: map<string, int> := map["bitcoin" := 61000, "ethereum" := 3200]

  /** What a tool hands back: a number, a boolean, a string, or the stand-in for
      whatever `sum` or `prime` produce from arguments that do not match their
      declared parameters. */
  datatype Value = Num(n: int) | Bool(b: bool) | Str(s: string) | IllTyped

  /** The `getCryptoPrice` tool: looks up the lower-cased name; a missing entry (or
      a price of 0, which `||` also treats as missing) gives the sentinel string. */
  function CryptoPrice(coin: string): (v: Value)
    ensures v == Num(61000) <==> Ascii.CaseVariant(coin, "bitcoin")
    ensures v == Num(3200) <==> Ascii.CaseVariant(coin, "ethereum")
    ensures v == Str(NotFound) <==>
              !Ascii.CaseVariant(coin, "bitcoin") && !Ascii.CaseVariant(coin, "ethereum")
  {
    Ascii.ToLowerIsWord(coin, "bitcoin");
    Ascii.ToLowerIsWord(coin, "ethereum");
    var key := Ascii.ToLower(coin);
    if key in Prices && Prices[key] != 0 then Num(Prices[key]) else Str(NotFound)
  }

  /** The price depends on the name only through its lower-case form. */
  lemma CryptoPriceIgnoresCase(a: string, b: string)
    requires Ascii.ToLower(a) == Ascii.ToLower(b)
    ensures CryptoPrice(a) == CryptoPrice(b)
  {
  }

  /** The price table answers for any spelling of a listed name, and only then. */
  lemma CryptoPriceExamples()
    ensures CryptoPrice("bitcoin") == CryptoPrice("BITCOIN") == CryptoPrice("Bitcoin") == Num(61000)
    ensures CryptoPrice("eThErEuM") == Num(3200)
    ensures CryptoPrice("dogecoin") == Str(NotFound)
  {
    assert Ascii.CaseVariant("BITCOIN", "bitcoin");
    assert Ascii.CaseVariant("Bitcoin", "bitcoin");
    assert Ascii.CaseVariant("eThErEuM", "ethereum");
    assert "dogecoin"[0] != "bitcoin"[0];
  }

  // ---------------------------------------------------------------- registry

  datatype Tool = SumTool | PrimeTool | CryptoPriceTool

  /** The key under which each tool is registered. */
  function Name(t: Tool): string {
    match t
    case SumTool => "sum"
    case PrimeTool => "prime"
    case CryptoPriceTool => "getCryptoPrice"
  }

  /** Registry lookup by exact (case-sensitive) name. */
  function Lookup(name: string): (r: Option<Tool>)
    ensures forall t: Tool :: Name(t) == name ==> r == Some(t)
    ensures r.Some? ==> Name(r.value) == name
  {
    if name == "sum" then Some(SumTool)
    else if name == "prime" then Some(PrimeTool)
    else if name == "getCryptoPrice" then Some(CryptoPriceTool)
    else None
  }

  /** Looking up a tool's own name finds that tool. */
  lemma LookupName(t: Tool)
    ensures Lookup(Name(t)) == Some(t)
  {
  }

  // ---------------------------------------------------------------- declarations

  datatype ParamType = NumberType | StringType

  datatype Param = Param(name: string, ty: ParamType)

  /** The required parameters each tool declares: at least one, with distinct
      names, and only `getCryptoPrice` takes a string. */
  function Declared(t: Tool): (ps: seq<Param>)
    ensures |ps| >= 1
    ensures forall i, j :: 0 <= i < j < |ps| ==> ps[i].name != ps[j].name
    ensures (exists i :: 0 <= i < |ps| && ps[i].ty == StringType) <==> t == CryptoPriceTool
  {
    match t
    case SumTool => [Param("num1", NumberType), Param("num2", NumberType)]
    case PrimeTool => [Param("num", NumberType)]
    case CryptoPriceTool =>
      var ps := [Param("coin", StringType)];
      assert ps[0].ty == StringType;
      ps
  }

  datatype Arg = NumArg(n: int) | StrArg(s: string)

  type Args = map<string, Arg>

  predicate HasType(a: Arg, ty: ParamType) {
    match ty
    case NumberType => a.NumArg?
    case StringType => a.StrArg?
  }

  /** Every declared parameter is present with its declared type. */
  predicate Conforms(args: Args, params: seq<Param>) {
    forall i :: 0 <= i < |params| ==> params[i].name in args && HasType(args[params[i].name], params[i].ty)
  }

  /** How a tool call ends: with a value, or with the `TypeError` that
      `coin.toLowerCase()` raises when `coin` is missing or not a string. */
  datatype CallResult = Returned(value: Value) | ThrewTypeError

  /** Calls a tool with a named-argument record, as `fn(fc.args)` does. Only
      `getCryptoPrice` throws, and only when its `coin` is missing or not a string. */
  function Invoke(t: Tool, args: Args): (c: CallResult)
    ensures c.ThrewTypeError? <==> t == CryptoPriceTool && !Conforms(args, Declared(t))
    ensures c == Returned(IllTyped) <==> t != CryptoPriceTool && !Conforms(args, Declared(t))
    ensures t == SumTool && Conforms(args, Declared(t)) ==>
              && "num1" in args && args["num1"].NumArg?
              && "num2" in args && args["num2"].NumArg?
              && c == Returned(Num(args["num1"].n + args["num2"].n))
    ensures t == PrimeTool && Conforms(args, Declared(t)) ==>
              && "num" in args && args["num"].NumArg?
              && c.Returned? && c.value.Bool? && (c.value.b <==> IsPrime(args["num"].n))
    ensures t == CryptoPriceTool && Conforms(args, Declared(t)) ==>
              && "coin" in args && args["coin"].StrArg?
              && c == Returned(CryptoPrice(args["coin"].s))
  {
    if !Conforms(args, Declared(t)) then
      if t == CryptoPriceTool then ThrewTypeError else Returned(IllTyped)
    else
      match t
      case SumTool =>
        assert Declared(t)[0].name == "num1" && Declared(t)[1].name == "num2";
        Returned(Num(Sum(args["num1"].n, args["num2"].n)))
      case PrimeTool =>
        assert Declared(t)[0].name == "num";
        Returned(Bool(Prime(args["num"].n)))
      case CryptoPriceTool =>
        assert Declared(t)[0].name == "coin";
        Returned(CryptoPrice(args["coin"].s))
  }
}
