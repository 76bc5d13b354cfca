/** The request text `sig1` signs. */
module CanonicalRequests {
  import opened CanonicalText

  datatype SignedRequest = SignedRequest(
    service: string,
    timestampMs: nat,
    nonce: string,
    httpMethod: string,
    pathname: string,
    canonicalQuery: string,
    bodySha256Hex: string,
    actor: string)

  /** `toUpperCase` on the ASCII letters of a method name. */
  function ToUpperCase(text: string): (upper: string)
    ensures |upper| == |text|
    ensures forall k :: 0 <= k < |text| && text[k] == '\n' <==> 0 <= k < |upper| && upper[k] == '\n'
    ensures forall k :: 0 <= k < |upper| ==> !('a' <= upper[k] <= 'z')
    ensures forall k :: 0 <= k < |upper| ==>
              upper[k] == text[k] || ('a' <= text[k] <= 'z' && upper[k] as int - 'A' as int == text[k] as int - 'a' as int)
  {
    if text == "" then ""
    else [if 'a' <= text[0] <= 'z' then text[0] - 32 as char else text[0]] + ToUpperCase(text[1..])
  }

  function RequestFields(p: SignedRequest): seq<string> {
    ["sig1", p.service, Decimal(p.timestampMs), p.nonce, ToUpperCase(p.httpMethod), p.pathname, p.canonicalQuery,
     p.bodySha256Hex, p.actor]
  }

  function BuildCanonicalRequestString(p: SignedRequest): string {
    JoinWith('\n', RequestFields(p))
  }

  /** The signed text, line by line. */
  lemma SignedText(p: SignedRequest)
    ensures BuildCanonicalRequestString(p)
            == "sig1" + "\n" + (p.service + "\n" + (Decimal(p.timestampMs) + "\n" + (p.nonce + "\n" + (ToUpperCase(p.httpMethod) + "\n"
               + (p.pathname + "\n" + (p.canonicalQuery + "\n" + (p.bodySha256Hex + "\n" + p.actor)))))))
  {
    var fields := RequestFields(p);
    JoinsNext('\n', p.bodySha256Hex, fields[8..]);
    JoinsNext('\n', p.canonicalQuery, fields[7..]);
    JoinsNext('\n', p.pathname, fields[6..]);
    JoinsNext('\n', ToUpperCase(p.httpMethod), fields[5..]);
    JoinsNext('\n', p.nonce, fields[4..]);
    JoinsNext('\n', Decimal(p.timestampMs), fields[3..]);
    JoinsNext('\n', p.service, fields[2..]);
    JoinsNext('\n', "sig1", fields[1..]);
  }

  /** No field but the actor can hold a newline: header tokens, URL parts and hex cannot. */
  predicate FieldsAreLines(p: SignedRequest) {
    forall field | field in [p.service, p.nonce, p.httpMethod, p.pathname, p.canonicalQuery, p.bodySha256Hex] ::
      '\n' !in field
  }

  lemma LinesHaveNoNewline(p: SignedRequest)
    requires FieldsAreLines(p)
    ensures AllFree('\n', RequestFields(p)[..8])
  {
    DecimalIsDigits(p.timestampMs);
    var lines := [p.service, p.nonce, p.httpMethod, p.pathname, p.canonicalQuery, p.bodySha256Hex];
    assert lines[0] in lines && lines[1] in lines && lines[2] in lines && lines[3] in lines && lines[4] in lines && lines[5] in lines;
    assert '\n' !in ToUpperCase(p.httpMethod) by {
      forall k | 0 <= k < |p.httpMethod| ensures ToUpperCase(p.httpMethod)[k] != '\n' {
        assert p.httpMethod[k] != '\n';
      }
    }
  }

  /** The signed text determines every field, the method up to letter case. */
  lemma TextDeterminesTheRequest(p: SignedRequest, q: SignedRequest)
    requires FieldsAreLines(p) && FieldsAreLines(q)
    ensures BuildCanonicalRequestString(p) == BuildCanonicalRequestString(q) <==>
            p.(httpMethod := ToUpperCase(p.httpMethod)) == q.(httpMethod := ToUpperCase(q.httpMethod))
  {
    if BuildCanonicalRequestString(p) == BuildCanonicalRequestString(q) {
      LinesHaveNoNewline(p);
      LinesHaveNoNewline(q);
      var s, t := RequestFields(p), RequestFields(q);
      SameCountJoinsApart('\n', s, t);
      assert s[1] == t[1] && s[2] == t[2] && s[3] == t[3] && s[4] == t[4] && s[5] == t[5] && s[6] == t[6] && s[7] == t[7] && s[8] == t[8];
      DecimalIsInjective(p.timestampMs, q.timestampMs);
    }
  }
}
