/** JSON values as the source sees them after `JSON.parse`, with the
    JavaScript coercions the code applies to them: truthiness, property
    lookup `o[k]`, and `String(v)`. Numbers are integers here. */
module Json {
  import opened Wrappers
  import opened Text

  datatype Json =
    | JNull
    | JBool(b: bool)
    | JNum(n: int)
    | JStr(s: string)
    | JArr(items: seq<Json>)
    | JObj(fields: map<string, Json>)

  /** JavaScript truthiness: null, false, 0 and "" are falsy. */
  predicate Truthy(v: Json) {
    match v
    case JNull => false
    case JBool(b) => b
    case JNum(n) => n != 0
    case JStr(s) => |s| > 0
    case JArr(_) => true
    case JObj(_) => true
  }

  /** Truthiness of a possibly missing (undefined) value. */
  predicate Present(v: Option<Json>) {
    v.Some? && Truthy(v.value)
  }

  /** A canonical array index: "0", or digits without a leading zero. */
  function ArrayIndex(k: string): (r: Option<nat>)
    ensures r.Some? ==> NatToString(r.value) == k
  {
    if |k| > 0 && AllDigits(k) && (k[0] != '0' || |k| == 1) then
      CanonicalDigits(k);
      Some(DecimalValue(k))
    else None
  }

  /** Digits without a leading zero are the rendering of their value. */
  lemma {:induction false} CanonicalDigits(k: string)
    requires |k| > 0 && AllDigits(k) && (k[0] != '0' || |k| == 1)
    ensures NatToString(DecimalValue(k)) == k
    decreases |k|
  {
    if |k| == 1 {
    } else {
      var p := k[..|k| - 1];
      assert p[0] == k[0];
      CanonicalDigits(p);
      var d := k[|k| - 1] as int - '0' as int;
      var n := DecimalValue(k);
      assert n == DecimalValue(p) * 10 + d;
      LeadingDigitPositive(p);
      assert n / 10 == DecimalValue(p) && n % 10 == d;
      assert n >= 10;
      assert NatToString(n) == NatToString(n / 10) + [DigitChar(n % 10)];
    }
  }

  lemma {:induction false} LeadingDigitPositive(p: string)
    requires |p| > 0 && AllDigits(p) && p[0] != '0'
    ensures DecimalValue(p) >= 1
    decreases |p|
  {
    if |p| > 1 {
      assert p[..|p| - 1][0] == p[0];
      LeadingDigitPositive(p[..|p| - 1]);
    }
  }

  /** Property lookup `v[k]`; None is `undefined`. Objects look up their
      own keys, arrays and strings their indices and `length`. */
  function Get(v: Json, k: string): (r: Option<Json>)
    ensures v.JObj? ==> (r.Some? <==> k in v.fields)
    ensures v.JNull? || v.JBool? || v.JNum? ==> r.None?
  {
    match v
    case JObj(m) => if k in m then Some(m[k]) else None
    case JArr(items) =>
      if k == "length" then Some(JNum(|items|))
      else (match ArrayIndex(k)
            case Some(i) => if i < |items| then Some(items[i]) else None
            case None => None)
    case JStr(s) =>
      if k == "length" then Some(JNum(|s|))
      else (match ArrayIndex(k)
            case Some(i) => if i < |s| then Some(JStr([s[i]])) else None
            case None => None)
    case _ => None
  }

  /** The elements `for...of` visits in a string: its characters. */
  function Chars(s: string): (r: seq<Json>)
    ensures |r| == |s|
    ensures forall i :: 0 <= i < |s| ==> r[i] == JStr([s[i]])
  {
    seq(|s|, i requires 0 <= i < |s| => JStr([s[i]]))
  }

  /** `v.k` for a key that is neither an array index nor `length`: only
      objects have such a property. */
  function Member(v: Json, k: string): (r: Option<Json>)
    ensures r.Some? ==> v.JObj? && k in v.fields && r.value == v.fields[k]
  {
    if v.JObj? && k in v.fields then Some(v.fields[k]) else None
  }

  lemma MemberIsGet(v: Json, k: string)
    requires ArrayIndex(k).None? && k != "length"
    ensures Member(v, k) == Get(v, k)
  {
  }

  /** The TypeError message for reading property `k` of null. */
  function NullRead(k: string): string {
    "Cannot read properties of null (reading '" + k + "')"
  }

  /** `String(v)`. */
  function ToJsString(v: Json): string
    decreases v
  {
    match v
    case JNull => "null"
    case JBool(b) => if b then "true" else "false"
    case JNum(n) => IntToString(n)
    case JStr(s) => s
    case JArr(items) =>
      Join(seq(|items|, i requires 0 <= i < |items| => ElementString(items, i, v)), ",")
    case JObj(_) => "[object Object]"
  }

  /** An array element as `Array.prototype.join` renders it: null as "". */
  function ElementString(items: seq<Json>, i: nat, whole: Json): string
    requires i < |items| && whole == JArr(items)
    decreases whole, 0
  {
    assert items[i] < whole;
    if items[i].JNull? then "" else ToJsString(items[i])
  }

  /** A value interpolated into a template literal: undefined prints as
      "undefined". */
  function TemplateText(v: Option<Json>): string {
    match v
    case None => "undefined"
    case Some(j) => ToJsString(j)
  }

  /** `String(v || '')`: falsy values (and undefined) become "". */
  function StringOrEmpty(v: Option<Json>): (r: string)
    ensures !Present(v) ==> r == ""
    ensures v.Some? && v.value.JStr? ==> r == v.value.s
  {
    if Present(v) then ToJsString(v.value) else ""
  }

  /** A JavaScript number as far as the model tracks it: an integer, an
      infinity, or NaN. */
  datatype JsNumber = Finite(n: int) | Infinite(negative: bool) | NaN

  /** `Number(s)` for the integer syntax: surrounding white space is
      ignored, the blank string is 0, and an optional sign may precede a
      run of decimal digits or "Infinity". Fractions, exponents and the
      0x/0o/0b prefixes are not modelled and read as NaN. */
  function StringToNumber(s: string): (r: JsNumber)
    ensures Trim(s) == "" ==> r == Finite(0)
    ensures Trim(s) != "" && AllDigits(Trim(s)) ==> r == Finite(DecimalValue(Trim(s)))
    ensures |Trim(s)| > 1 && Trim(s)[0] == '-' && AllDigits(Trim(s)[1..]) ==> r == Finite(-(DecimalValue(Trim(s)[1..]) as int))
    ensures |Trim(s)| > 1 && Trim(s)[0] == '+' && AllDigits(Trim(s)[1..]) ==> r == Finite(DecimalValue(Trim(s)[1..]))
  {
    var t := Trim(s);
    if t == "" then Finite(0)
    else
      var negative := t[0] == '-';
      var digits := if t[0] == '-' || t[0] == '+' then t[1..] else t;
      if digits == "Infinity" then Infinite(negative)
      else if digits != "" && AllDigits(digits) then
        var v: int := DecimalValue(digits);
        Finite(if negative then -v else v)
      else NaN
  }

  /** A string without white space trims to itself. */
  lemma TrimUnspaced(s: string)
    requires forall i :: 0 <= i < |s| ==> !IsJsSpace(s[i])
    ensures Trim(s) == s
  {
    var lo, hi :| 0 <= lo <= hi <= |s| && Trim(s) == s[lo..hi]
                  && (forall i :: 0 <= i < lo ==> IsJsSpace(s[i]))
                  && (forall i :: hi <= i < |s| ==> IsJsSpace(s[i]));
    if |s| > 0 {
      assert !IsJsSpace(s[0]) && !IsJsSpace(s[|s| - 1]);
    }
  }

  /** Exactly the three spellings of infinity read as an infinity, and the
      sign decides which one. */
  lemma InfinityNumber(s: string)
    ensures StringToNumber(s).Infinite? <==> Trim(s) == "Infinity" || Trim(s) == "+Infinity" || Trim(s) == "-Infinity"
    ensures StringToNumber(s) == Infinite(true) <==> Trim(s) == "-Infinity"
  {
    var t := Trim(s);
    if t != "" && (t[0] == '-' || t[0] == '+') {
      assert t == [t[0]] + t[1..];
      assert t[1..] == "Infinity" <==> t == [t[0]] + "Infinity";
    }
  }

  /** A rendered integer is a '-' or digits, so it holds no white space. */
  lemma IntToStringUnspaced(n: int)
    ensures forall i :: 0 <= i < |IntToString(n)| ==> !IsJsSpace(IntToString(n)[i])
  {
    var d := NatToString(if n < 0 then -n else n);
    var s := IntToString(n);
    assert forall i :: 0 <= i < |d| ==> IsDigit(d[i]);
    if n < 0 {
      assert s == "-" + d;
      assert forall i :: 1 <= i < |s| ==> s[i] == d[i - 1];
    }
  }

  /** Reading back a rendered integer gives the integer. */
  lemma NumberRoundTrip(n: int)
    ensures StringToNumber(IntToString(n)) == Finite(n)
  {
    IntToStringUnspaced(n);
    TrimUnspaced(IntToString(n));
    if n < 0 {
      NegativeRoundTrip(n);
    }
  }

  /** The decimal text of a non-zero integer is truthy and coerces back to
      the integer. */
  lemma DecimalText(n: int)
    requires n != 0
    ensures Truthy(JStr(IntToString(n))) && ToNumber(JStr(IntToString(n))) == Finite(n)
  {
    NumberRoundTrip(n);
    assert |IntToString(n)| > 0;
  }

  /** A rendered negative integer is '-' followed by the digits of its
      magnitude. */
  lemma NegativeRoundTrip(n: int)
    requires n < 0
    requires Trim(IntToString(n)) == IntToString(n)
    ensures StringToNumber(IntToString(n)) == Finite(n)
  {
    var s := IntToString(n);
    assert |s| > 1 && s[0] == '-' && s[1..] == NatToString(-n);
  }

  /** `Number(v)`, the coercion arithmetic applies: objects and arrays
      through their string form. */
  function ToNumber(v: Json): (r: JsNumber)
    ensures v.JNum? ==> r == Finite(v.n)
    ensures v.JStr? ==> r == StringToNumber(v.s)
    ensures v.JArr? || v.JObj? ==> r == StringToNumber(ToJsString(v))
  {
    match v
    case JNull => Finite(0)
    case JBool(b) => Finite(if b then 1 else 0)
    case JNum(n) => Finite(n)
    case JStr(s) => StringToNumber(s)
    case _ => StringToNumber(ToJsString(v))
  }
}
