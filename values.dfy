/**
 * Dynamically typed values as they reach the model validators and the LLM
 * service: Ruby literals in the validation tests and the decoded JSON reply
 * of the language model. Also the two coercions the validators rely on:
 * the text form of a value and the reading of an integer literal.
 */
module Values {

  datatype Option<T> = None | Some(value: T)

  datatype Value =
    | Nil
    | Bool(b: bool)
    | Int(i: int)
    | Str(s: string)
    | List(items: seq<Value>)
    | Object(fields: map<string, Value>)

  /** `hash[key]` in Ruby: a missing key reads as nil. */
  function Get(m: map<string, Value>, key: string): (v: Value)
    ensures key !in m ==> v == Nil
    ensures key in m ==> v == m[key]
  {
    if key in m then m[key] else Nil
  }

  // ---------------------------------------------------------------------
  // Strings
  // ---------------------------------------------------------------------

  /** `c * n` in Ruby. */
  function Repeat(c: char, n: nat): (s: string)
    ensures |s| == n
    ensures forall k :: 0 <= k < n ==> s[k] == c
  {
    if n == 0 then [] else Repeat(c, n - 1) + [c]
  }

  predicate StartsWith(s: string, prefix: string) {
    |prefix| <= |s| && s[..|prefix|] == prefix
  }

  predicate OccursAt(s: string, part: string, k: int) {
    0 <= k <= |s| - |part| && s[k..k + |part|] == part
  }

  /** `s.include?(part)` in Ruby. */
  ghost predicate Contains(s: string, part: string) {
    exists k :: OccursAt(s, part, k)
  }

  lemma ContainsInfix(a: string, b: string, c: string)
    ensures Contains(a + b + c, b)
  {
    var s := a + b + c;
    assert s[|a|..|a| + |b|] == b;
    assert OccursAt(s, b, |a|);
  }

  lemma ContainsExtend(a: string, s: string, c: string, part: string)
    requires Contains(s, part)
    ensures Contains(a + s + c, part)
  {
    var k :| OccursAt(s, part, k);
    var t := a + s + c;
    assert t[|a| + k..|a| + k + |part|] == s[k..k + |part|];
    assert OccursAt(t, part, |a| + k);
  }

  // ---------------------------------------------------------------------
  // Decimal text of integers
  // ---------------------------------------------------------------------

  predicate IsDigit(c: char) {
    '0' <= c <= '9'
  }

  function DigitChar(d: nat): (c: char)
    requires d < 10
    ensures IsDigit(c) && c as int - '0' as int == d
  {
    ('0' as int + d) as char
  }

  /** Decimal digits of `n`, most significant first, without leading zeros. */
  function NatText(n: nat): (t: string)
    decreases n
  {
    if n < 10 then [DigitChar(n)] else NatText(n / 10) + [DigitChar(n % 10)]
  }

  /** `i.to_s` in Ruby. */
  function IntText(i: int): (t: string) {
    if i < 0 then "-" + NatText(-i) else NatText(i)
  }

  /**
   * The text a string attribute holds after Ruby's coercion: a string is
   * itself, an integer or a boolean is its `to_s`, nil stays nil. Lists and
   * objects have no text form in this model.
   */
  function TextForm(v: Value): (t: Option<string>)
    ensures t.None? <==> (v.Nil? || v.List? || v.Object?)
    ensures v.Str? ==> t == Some(v.s)
  {
    match v
    case Nil => None
    case Bool(b) => Some(if b then "true" else "false")
    case Int(i) => Some(IntText(i))
    case Str(s) => Some(s)
    case List(_) => None
    case Object(_) => None
  }

  /** The text used when a value is rendered into a message; nil renders empty. */
  function Text(v: Value): string {
    match TextForm(v)
    case Some(t) => t
    case None => ""
  }

  /** A length validation on a string attribute: present, and its text length in lo..hi. */
  predicate TextLengthWithin(v: Value, lo: nat, hi: nat) {
    match TextForm(v)
    case Some(t) => lo <= |t| <= hi
    case None => false
  }

  function Pow10(k: nat): (p: nat)
    ensures p >= 1
  {
    if k == 0 then 1 else 10 * Pow10(k - 1)
  }

  lemma {:induction false} NatTextDigits(n: nat)
    ensures |NatText(n)| > 0
    ensures forall k :: 0 <= k < |NatText(n)| ==> IsDigit(NatText(n)[k])
    decreases n
  {
    if n >= 10 {
      NatTextDigits(n / 10);
    }
  }

  /** A number below 10^k has at most k digits. */
  lemma {:induction false} NatTextLength(n: nat, k: nat)
    requires 1 <= k && n < Pow10(k)
    ensures |NatText(n)| <= k
    decreases n
  {
    if n >= 10 {
      assert Pow10(1) == 10;
      assert k >= 2;
      assert n / 10 < Pow10(k - 1);
      NatTextLength(n / 10, k - 1);
    }
  }

  lemma IntTextLength(i: int, k: nat)
    requires 1 <= k && -(Pow10(k) as int) < i < Pow10(k)
    ensures |IntText(i)| <= k + 1
  {
    if i < 0 { NatTextLength(-i, k); } else { NatTextLength(i, k); }
  }

  // ---------------------------------------------------------------------
  // Reading integer literals
  // ---------------------------------------------------------------------

  predicate DigitsOrUnderscores(s: string) {
    forall k :: 0 <= k < |s| ==> IsDigit(s[k]) || s[k] == '_'
  }

  /**
   * The body of a decimal integer literal: digits, where an underscore may
   * stand only between two digits (`2_433`).
   */
  predicate IsDigitRun(s: string) {
    && |s| > 0
    && IsDigit(s[0])
    && IsDigit(s[|s| - 1])
    && DigitsOrUnderscores(s)
    && (forall k :: 0 <= k < |s| - 1 && s[k] == '_' ==> s[k + 1] != '_')
  }

  /** The number a run of digits and underscores denotes, underscores skipped. */
  function DigitsValue(s: string): (n: nat)
    requires DigitsOrUnderscores(s)
  {
    if s == [] then 0
    else
      var init := s[..|s| - 1];
      var last := s[|s| - 1];
      if last == '_' then DigitsValue(init)
      else DigitsValue(init) * 10 + (last as int - '0' as int)
  }

  /** The integer a numeric-looking string stands for: an optional sign and a digit run. */
  function ParseInteger(s: string): (r: Option<int>)
    ensures r.Some? ==> |s| > 0 && IsDigit(s[|s| - 1])
    ensures IsDigitRun(s) ==> r.Some? && r.value >= 0
    ensures (forall k :: 0 <= k < |s| ==> !IsDigit(s[k])) ==> r.None?
  {
    if |s| > 0 && (s[0] == '-' || s[0] == '+') then
      var body := s[1..];
      if IsDigitRun(body) then
        Some(if s[0] == '-' then -(DigitsValue(body) as int) else DigitsValue(body))
      else None
    else if IsDigitRun(s) then Some(DigitsValue(s))
    else None
  }

  lemma {:induction false} NatTextValue(n: nat)
    ensures DigitsOrUnderscores(NatText(n))
    ensures DigitsValue(NatText(n)) == n
    decreases n
  {
    NatTextDigits(n);
    if n >= 10 {
      var t := NatText(n);
      NatTextValue(n / 10);
      assert t[..|t| - 1] == NatText(n / 10);
    } else {
      assert NatText(n)[..0] == [];
    }
  }

  /** Reading the decimal text of an integer gives the integer back. */
  lemma ParseIntText(i: int)
    ensures ParseInteger(IntText(i)) == Some(i)
  {
    var n: nat := if i < 0 then -i else i;
    NatTextDigits(n);
    NatTextValue(n);
    var t := NatText(n);
    assert IsDigitRun(t);
    if i < 0 {
      assert IntText(i)[1..] == t;
    } else {
      assert !(t[0] == '-' || t[0] == '+');
    }
  }
}
