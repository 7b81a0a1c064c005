/** Untyped JSON-RPC reply values and the few pieces of Python semantics the
    survey client applies to them: truthiness (`x or y`), `str()` of a scalar,
    and the decimal rendering of integers used when composing file names. */
module Values {

  /** A decoded reply of the remote service, or an argument passed to it.
      Python's `None` and JSON `null` are the same value, `VNull`. */
  datatype Value =
    | VList(items: seq<Value>)
    | VMap(fields: map<string, Value>)
    | VBool(b: bool)
    | VStr(s: string)
    | VInt(i: int)
    | VNull

  datatype Option<+T> = None | Some(value: T)

  type byte = b: int | 0 <= b < 256

  /** Python truthiness, as used by `username or self.api.username`. */
  predicate Truthy(v: Value)
  {
    match v
    case VList(items) => |items| > 0
    case VMap(fields) => |fields| > 0
    case VBool(b) => b
    case VStr(s) => |s| > 0
    case VInt(i) => i != 0
    case VNull => false
  }

  /** The reply shapes the classifiers test for: `type(r) is dict and "status" in r`. */
  predicate HasStatus(v: Value)
  {
    v.VMap? && "status" in v.fields
  }

  /** Values Python's `str()` renders without a container repr. */
  predicate IsScalar(v: Value)
  {
    !v.VList? && !v.VMap?
  }

  /** Values that can be a Python dict key; lists and dicts are unhashable. */
  predicate Hashable(v: Value)
  {
    IsScalar(v)
  }

  predicate IsDigit(c: char)
  {
    '0' <= c <= '9'
  }

  function DigitChar(d: nat): (c: char)
    requires d < 10
    ensures IsDigit(c)
    ensures (c as int) - ('0' as int) == d
  {
    ['0', '1', '2', '3', '4', '5', '6', '7', '8', '9'][d]
  }

  /** Decimal digits of a natural number, most significant first, no leading zero. */
  function NatToString(n: nat): (s: string)
    ensures |s| > 0
    ensures forall k :: 0 <= k < |s| ==> IsDigit(s[k])
    ensures |s| > 1 ==> s[0] != '0'
    decreases n
  {
    if n < 10 then [DigitChar(n)] else NatToString(n / 10) + [DigitChar(n % 10)]
  }

  /** A decimal numeral as Python writes one: an optional '-', then a
      nonempty run of digits without a leading zero; zero is never signed. */
  predicate CanonicalNumeral(s: string)
  {
    var d := if |s| > 0 && s[0] == '-' then s[1..] else s;
    && |d| > 0
    && (forall k :: 0 <= k < |d| ==> IsDigit(d[k]))
    && (|d| > 1 ==> d[0] != '0')
    && (s[0] == '-' ==> d != "0")
  }

  /** Python's `str(i)` for an `int`: a minus sign exactly for negative
      numbers, then the digits. */
  function IntToString(i: int): (s: string)
    ensures |s| > 0
    ensures forall k :: 0 <= k < |s| ==> IsDigit(s[k]) || s[k] == '-'
    ensures (s[0] == '-') <==> i < 0
    ensures CanonicalNumeral(s)
  {
    if i < 0 then "-" + NatToString(-i) else NatToString(i)
  }

  /** Reads a nonempty run of decimal digits back as a number. */
  function ParseNat(s: string): Option<nat>
    decreases |s|
  {
    if |s| == 0 then None
    else if !IsDigit(s[|s| - 1]) then None
    else
      var d := (s[|s| - 1] as int) - ('0' as int);
      if |s| == 1 then Some(d)
      else match ParseNat(s[..|s| - 1])
        case None => None
        case Some(p) => Some(p * 10 + d)
  }

  /** Reads an optionally negative decimal integer. */
  function ParseInt(s: string): Option<int>
  {
    if |s| > 0 && s[0] == '-' then
      match ParseNat(s[1..])
      case None => None
      case Some(n) => Some(0 - (n as int))
    else match ParseNat(s)
      case None => None
      case Some(n) => Some(n)
  }

  lemma {:induction false} ParseNatToString(n: nat)
    ensures ParseNat(NatToString(n)) == Some(n)
    decreases n
  {
    if n >= 10 {
      var s := NatToString(n);
      assert s[..|s| - 1] == NatToString(n / 10);
      ParseNatToString(n / 10);
    }
  }

  /** `str(i)` is read back as `i`: the rendering loses nothing. */
  lemma ParseIntToString(i: int)
    ensures ParseInt(IntToString(i)) == Some(i)
  {
    var s := IntToString(i);
    if i < 0 {
      var digits := NatToString(-i);
      assert s == "-" + digits;
      assert s[0] == '-' && s[1..] == digits;
      ParseNatToString(-i);
      assert ParseInt(s) == Some(0 - (-i));
    } else {
      assert s == NatToString(i);
      assert IsDigit(s[0]);
      ParseNatToString(i);
    }
  }

  /** A numeral without a leading zero names a positive number. */
  lemma {:induction false} ParseNatPositive(d: string, n: nat)
    requires |d| > 0 && d[0] != '0' && ParseNat(d) == Some(n)
    ensures n > 0
    decreases |d|
  {
    if |d| > 1 {
      var init := d[..|d| - 1];
      var p := ParseNat(init).value;
      assert init[0] == d[0];
      ParseNatPositive(init, p);
    }
  }

  lemma DigitCharOf(c: char)
    requires IsDigit(c)
    ensures DigitChar((c as int) - ('0' as int)) == c
  {
  }

  /** A canonical run of digits is the rendering of the number it reads as:
      no other spelling of that number is canonical. */
  lemma {:induction false} CanonicalDigitsUnique(d: string, n: nat)
    requires |d| > 0 && (forall k :: 0 <= k < |d| ==> IsDigit(d[k])) && (|d| > 1 ==> d[0] != '0')
    requires ParseNat(d) == Some(n)
    ensures d == NatToString(n)
    decreases |d|
  {
    var c := d[|d| - 1];
    var digit := (c as int) - ('0' as int);
    DigitCharOf(c);
    if |d| > 1 {
      var init := d[..|d| - 1];
      var p := ParseNat(init).value;
      assert init[0] == d[0];
      assert forall k :: 0 <= k < |init| ==> init[k] == d[k];
      ParseNatPositive(init, p);
      CanonicalDigitsUnique(init, p);
      assert n == p * 10 + digit;
      assert n / 10 == p && n % 10 == digit;
      assert d == init + [c];
    }
  }

  /** `str(i)` is the only canonical numeral that reads back as `i`, so a
      padded spelling such as "07" is never produced. */
  lemma CanonicalNumeralUnique(s: string, i: int)
    requires CanonicalNumeral(s) && ParseInt(s) == Some(i)
    ensures s == IntToString(i)
  {
    if |s| > 0 && s[0] == '-' {
      var n := ParseNat(s[1..]).value;
      CanonicalDigitsUnique(s[1..], n);
      assert NatToString(0) == "0";
      assert n > 0;
      assert s == "-" + s[1..];
    } else {
      CanonicalDigitsUnique(s, ParseNat(s).value);
    }
  }

  /** Python's `str(v)` for the scalar values a reply can carry. */
  function PyStr(v: Value): (s: string)
    requires IsScalar(v)
    ensures v.VStr? ==> s == v.s
    ensures v.VInt? ==> ParseInt(s) == Some(v.i) && CanonicalNumeral(s) && (s[0] == '-' <==> v.i < 0)
    ensures v.VBool? ==> s == (if v.b then "True" else "False")
    ensures v.VNull? ==> s == "None"
  {
    match v
    case VBool(b) => if b then "True" else "False"
    case VStr(s) => s
    case VInt(i) => ParseIntToString(i); IntToString(i)
    case VNull => "None"
  }
}
