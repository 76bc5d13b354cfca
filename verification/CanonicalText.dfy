/** Newline-joined fields and decimal numbers: what can be read back from the joined text. */
module CanonicalText {

  function JoinWith(separator: char, fields: seq<string>): string {
    if fields == [] then ""
    else if |fields| == 1 then fields[0]
    else fields[0] + [separator] + JoinWith(separator, fields[1..])
  }

  lemma JoinsNext(separator: char, field: string, fields: seq<string>)
    requires fields != []
    ensures JoinWith(separator, [field] + fields) == field + [separator] + JoinWith(separator, fields)
  {
    assert ([field] + fields)[1..] == fields;
  }

  lemma {:induction false} FirstSplit(separator: char, a: string, rest: string, b: string, others: string)
    requires separator !in a && separator !in b
    requires a + [separator] + rest == b + [separator] + others
    ensures a == b && rest == others
  {
    var text, same := a + [separator] + rest, b + [separator] + others;
    if a == [] || b == [] {
      assert text[0] == same[0];
      assert a == b;
      assert text[1..] == rest && same[1..] == others;
    } else {
      assert text[0] == a[0] && same[0] == b[0];
      assert text[1..] == a[1..] + [separator] + rest && same[1..] == b[1..] + [separator] + others;
      FirstSplit(separator, a[1..], rest, b[1..], others);
      assert a == [a[0]] + a[1..] && b == [b[0]] + b[1..];
    }
  }

  /** The text before and after the last separator is determined by the whole. */
  lemma LastSplit(separator: char, a: string, rest: string, b: string, others: string)
    requires separator !in rest && separator !in others
    requires a + [separator] + rest == b + [separator] + others
    ensures a == b && rest == others
  {
    var text, same := a + [separator] + rest, b + [separator] + others;
    assert text[|a|] == separator && same[|b|] == separator;
    assert |a| == |b|;
    assert text[..|a|] == a && same[..|b|] == b;
    assert text[|a| + 1..] == rest && same[|b| + 1..] == others;
  }

  ghost predicate AllFree(separator: char, fields: seq<string>) {
    forall k :: 0 <= k < |fields| ==> separator !in fields[k]
  }

  /** Only the last field may hold the separator when the number of fields is known. */
  lemma {:induction false} SameCountJoinsApart(separator: char, s: seq<string>, t: seq<string>)
    requires |s| == |t| > 0
    requires AllFree(separator, s[..|s| - 1]) && AllFree(separator, t[..|t| - 1])
    requires JoinWith(separator, s) == JoinWith(separator, t)
    ensures s == t
  {
    if |s| == 1 {
      assert s == [s[0]] && t == [t[0]];
    } else {
      assert s[..|s| - 1][0] == s[0] && t[..|t| - 1][0] == t[0];
      FirstSplit(separator, s[0], JoinWith(separator, s[1..]), t[0], JoinWith(separator, t[1..]));
      assert s[1..][..|s| - 2] == s[..|s| - 1][1..] && t[1..][..|t| - 2] == t[..|t| - 1][1..];
      SameCountJoinsApart(separator, s[1..], t[1..]);
      assert s == [s[0]] + s[1..] && t == [t[0]] + t[1..];
    }
  }

  lemma {:induction false} JoinHoldsSeparatorIff(separator: char, fields: seq<string>)
    requires fields != [] && AllFree(separator, fields)
    ensures separator in JoinWith(separator, fields) <==> |fields| > 1
  {
    if |fields| > 1 {
      assert JoinWith(separator, fields)[|fields[0]|] == separator;
    }
  }

  /** Without the separator inside a field, the number of fields is recoverable too. */
  lemma {:induction false} JoinsApart(separator: char, s: seq<string>, t: seq<string>)
    requires s != [] && t != [] && AllFree(separator, s) && AllFree(separator, t)
    requires JoinWith(separator, s) == JoinWith(separator, t)
    ensures s == t
  {
    JoinHoldsSeparatorIff(separator, s);
    JoinHoldsSeparatorIff(separator, t);
    if |s| == 1 {
      assert s == [s[0]] && t == [t[0]];
    } else {
      FirstSplit(separator, s[0], JoinWith(separator, s[1..]), t[0], JoinWith(separator, t[1..]));
      JoinsApart(separator, s[1..], t[1..]);
      assert s == [s[0]] + s[1..] && t == [t[0]] + t[1..];
    }
  }

  // ---- decimal numbers ----

  const DIGITS := "0123456789"

  /** `String(n)` of a non-negative integer. */
  function Decimal(n: nat): string {
    if n < 10 then [DIGITS[n]] else Decimal(n / 10) + [DIGITS[n % 10]]
  }

  lemma {:induction false} DecimalIsDigits(n: nat)
    ensures Decimal(n) != "" && forall c :: c in Decimal(n) ==> c in DIGITS
  {
    if n >= 10 {
      DecimalIsDigits(n / 10);
    }
  }

  /** The number that decimal digits stand for. */
  function ValueOf(digits: string): int {
    if digits == "" then 0 else 10 * ValueOf(digits[..|digits| - 1]) + (digits[|digits| - 1] as int - '0' as int)
  }

  /** The digits stand for the number and have no leading zero. */
  lemma {:induction false} DecimalReadsBack(n: nat)
    ensures ValueOf(Decimal(n)) == n && |Decimal(n)| > 0 && (Decimal(n)[0] == '0' <==> n == 0)
  {
    assert DIGITS[n % 10] as int - '0' as int == n % 10;
    if n >= 10 {
      DecimalReadsBack(n / 10);
      assert Decimal(n)[..|Decimal(n)| - 1] == Decimal(n / 10);
    }
  }

  lemma DecimalIsInjective(a: nat, b: nat)
    requires Decimal(a) == Decimal(b)
    ensures a == b
  {
    DecimalReadsBack(a);
    DecimalReadsBack(b);
  }
}
