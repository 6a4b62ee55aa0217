/** The list of ports of a kubetunnel resource and its text form: values joined by commas, in quotes. */
module PortsCodec {
  import opened Decimal

  // ---------- The string operations it is built from ----------

  /** strings.Join(values, ","). */
  function Join(values: seq<string>): string {
    if values == [] then "" else if |values| == 1 then values[0] else values[0] + "," + Join(values[1..])
  }

  /** strings.Split(s, ","). */
  function Split(s: string): (pieces: seq<string>)
    ensures pieces != []
  {
    if s == "" then [""]
    else
      var rest := Split(s[1..]);
      if s[0] == ',' then [""] + rest else [[s[0]] + rest[0]] + rest[1..]
  }

  function TrimLeft(s: string): string {
    if s != "" && s[0] == '\"' then TrimLeft(s[1..]) else s
  }

  function TrimRight(s: string): string {
    if s != "" && s[|s| - 1] == '\"' then TrimRight(s[..|s| - 1]) else s
  }

  /** strings.Trim(s, "\""). */
  function Trim(s: string): string {
    TrimRight(TrimLeft(s))
  }

  function TrimAll(values: seq<string>): seq<string> {
    seq(|values|, i requires 0 <= i < |values| => Trim(values[i]))
  }

  function Encode(values: seq<string>): string {
    "\"" + Join(values) + "\""
  }

  function Decode(b: string): seq<string> {
    TrimAll(Split(b))
  }

  // ---------- Split and Join ----------

  predicate CommaFree(s: string) {
    forall i :: 0 <= i < |s| ==> s[i] != ','
  }

  ghost predicate AllCommaFree(values: seq<string>) {
    forall i :: 0 <= i < |values| ==> CommaFree(values[i])
  }

  lemma {:induction false} SplitIsCommaFree(s: string)
    ensures AllCommaFree(Split(s))
  {
    if s != "" {
      SplitIsCommaFree(s[1..]);
      assert CommaFree(Split(s[1..])[0]);
    }
  }

  lemma {:induction false} SplitOne(s: string)
    requires CommaFree(s)
    ensures Split(s) == [s]
  {
    if s != "" {
      SplitOne(s[1..]);
      assert [s[0]] + s[1..] == s;
    }
  }

  lemma {:induction false} SplitFirst(v: string, rest: string)
    requires CommaFree(v)
    ensures Split(v + "," + rest) == [v] + Split(rest)
  {
    if v == "" {
      assert v + "," + rest == "," + rest;
    } else {
      SplitFirst(v[1..], rest);
      assert (v + "," + rest)[1..] == v[1..] + "," + rest;
      assert ([v[1..]] + Split(rest))[1..] == Split(rest);
      assert [v[0]] + v[1..] == v;
    }
  }

  lemma {:induction false} SplitJoin(values: seq<string>)
    requires values != [] && AllCommaFree(values)
    ensures Split(Join(values)) == values
  {
    assert CommaFree(values[0]);
    if |values| == 1 {
      SplitOne(values[0]);
    } else {
      assert AllCommaFree(values[1..]);
      SplitJoin(values[1..]);
      SplitFirst(values[0], Join(values[1..]));
    }
  }

  lemma {:induction false} JoinSplit(s: string)
    ensures Join(Split(s)) == s
  {
    if s != "" {
      JoinSplit(s[1..]);
      var rest := Split(s[1..]);
      if s[0] == ',' {
        assert ([""] + rest)[1..] == rest;
      } else {
        assert ([[s[0]] + rest[0]] + rest[1..])[1..] == rest[1..];
      }
    }
  }

  lemma {:induction false} JoinPlain(values: seq<string>)
    requires forall i :: 0 <= i < |values| ==> Plain(values[i])
    ensures Plain(Join(values))
  {
    if |values| > 1 {
      JoinPlain(values[1..]);
    }
  }

  /** No character that a JSON string would have to escape. */
  predicate Plain(s: string) {
    forall i :: 0 <= i < |s| ==> s[i] != '\"' && s[i] != '\\' && s[i] >= ' '
  }

  /** Between its quotes the encoded text has no character to escape if no value has, so it is one JSON
      string; split at its commas, it is the list. */
  ghost predicate EncodedText(values: seq<string>, b: string) {
    && |b| >= 2 && b[0] == '\"' && b[|b| - 1] == '\"'
    && (values == [] ==> |b| == 2)
    && (values != [] && AllCommaFree(values) ==> Split(b[1..|b| - 1]) == values)
    && ((forall i :: 0 <= i < |values| ==> Plain(values[i])) ==> Plain(b[1..|b| - 1]))
  }

  lemma EncodeText(values: seq<string>)
    ensures EncodedText(values, Encode(values))
  {
    assert Encode(values)[1..|Encode(values)| - 1] == Join(values);
    if values != [] && AllCommaFree(values) {
      SplitJoin(values);
    }
    if forall i :: 0 <= i < |values| ==> Plain(values[i]) {
      JoinPlain(values);
    }
  }

  // ---------- Quotes ----------

  predicate Unquoted(s: string) {
    s == "" || (s[0] != '\"' && s[|s| - 1] != '\"')
  }

  lemma {:induction false} TrimRightEnds(s: string)
    ensures TrimRight(s) <= s
    ensures TrimRight(s) == "" || TrimRight(s)[|TrimRight(s)| - 1] != '\"'
  {
    if s != "" && s[|s| - 1] == '\"' {
      TrimRightEnds(s[..|s| - 1]);
    }
  }

  lemma {:induction false} TrimLeftEnds(s: string)
    ensures |TrimLeft(s)| <= |s| && TrimLeft(s) == s[|s| - |TrimLeft(s)|..]
    ensures TrimLeft(s) == "" || TrimLeft(s)[0] != '\"'
  {
    if s != "" && s[0] == '\"' {
      TrimLeftEnds(s[1..]);
    }
  }

  /** Trimming leaves a string without quotes at its ends and adds no comma; it is the identity exactly
      where there was nothing to trim. */
  lemma TrimUnquotes(s: string)
    ensures Unquoted(Trim(s))
    ensures CommaFree(s) ==> CommaFree(Trim(s))
    ensures Trim(s) == s <==> Unquoted(s)
  {
    TrimLeftEnds(s);
    TrimRightEnds(TrimLeft(s));
  }

  lemma {:induction false} TrimLeftBeforeQuote(s: string)
    ensures TrimLeft(s + "\"") == if TrimLeft(s) == "" then "" else TrimLeft(s) + "\""
  {
    if s != "" && s[0] == '\"' {
      TrimLeftBeforeQuote(s[1..]);
      assert (s + "\"")[1..] == s[1..] + "\"";
    } else if s == "" {
      assert s + "\"" == "\"" && TrimLeft("\"") == TrimLeft("\""[1..]);
    }
  }

  lemma TrimOuterQuotes(s: string)
    ensures Trim("\"" + s) == Trim(s)
    ensures Trim(s + "\"") == Trim(s)
  {
    assert ("\"" + s)[1..] == s;
    TrimLeftBeforeQuote(s);
    assert (TrimLeft(s) + "\"")[..|TrimLeft(s)|] == TrimLeft(s);
  }

  // ---------- Decoding what was encoded ----------

  lemma SplitQuoteFront(s: string)
    ensures Split("\"" + s) == ["\"" + Split(s)[0]] + Split(s)[1..]
  {
    assert ("\"" + s)[1..] == s;
  }

  /** The pieces with a quote after the last of them. */
  function QuoteLast(pieces: seq<string>): seq<string>
    requires pieces != []
  {
    pieces[|pieces| - 1 := pieces[|pieces| - 1] + "\""]
  }

  lemma {:induction false} SplitQuoteBack(s: string)
    ensures Split(s + "\"") == QuoteLast(Split(s))
  {
    if s == "" {
      assert s + "\"" == "\"" && Split("\""[1..]) == [""];
      assert ['\"'] + "" == "" + "\"" == "\"";
    } else {
      SplitQuoteBack(s[1..]);
      assert (s + "\"")[1..] == s[1..] + "\"";
      var rest := Split(s[1..]);
      if s[0] == ',' {
        assert [""] + QuoteLast(rest) == QuoteLast([""] + rest);
      } else {
        QuoteLastHead(rest, s[0]);
      }
    }
  }

  lemma QuoteLastHead(rest: seq<string>, c: char)
    requires rest != []
    ensures [[c] + QuoteLast(rest)[0]] + QuoteLast(rest)[1..] == QuoteLast([[c] + rest[0]] + rest[1..])
  {
    if |rest| == 1 {
      assert [c] + (rest[0] + "\"") == [c] + rest[0] + "\"";
    }
  }

  /** The two outer quotes make no difference to the decoding. */
  lemma DecodeEncode(values: seq<string>)
    ensures Decode(Encode(values)) == TrimAll(Split(Join(values)))
  {
    var s := Join(values);
    var pieces := Split(s);
    SplitQuoteFront(s);
    var front := Split("\"" + s);
    SplitQuoteBack("\"" + s);
    var both := Split("\"" + s + "\"");
    assert both == QuoteLast(front) && |front| == |pieces|;
    forall i | 0 <= i < |pieces|
      ensures Trim(both[i]) == Trim(pieces[i])
    {
      TrimOuterQuotes(front[i]);
      TrimOuterQuotes(pieces[i]);
    }
  }

  /** The lists that survive the codec. */
  ghost predicate Canonical(values: seq<string>) {
    values != [] && forall i :: 0 <= i < |values| ==> CommaFree(values[i]) && Unquoted(values[i])
  }

  lemma DecodeIsCanonical(b: string)
    ensures Canonical(Decode(b))
  {
    SplitIsCommaFree(b);
    forall i | 0 <= i < |Decode(b)|
      ensures CommaFree(Decode(b)[i]) && Unquoted(Decode(b)[i])
    {
      assert CommaFree(Split(b)[i]);
      TrimUnquotes(Split(b)[i]);
    }
  }

  /** Decoding the encoding of a list gives it back if and only if it is non-empty and no value has a
      comma or starts or ends with a quote. */
  lemma RoundTripIff(values: seq<string>)
    ensures Decode(Encode(values)) == values <==> Canonical(values)
  {
    if Canonical(values) {
      DecodeEncode(values);
      SplitJoin(values);
      forall i | 0 <= i < |values|
        ensures Trim(values[i]) == values[i]
      {
        TrimUnquotes(values[i]);
      }
    }
    if Decode(Encode(values)) == values {
      DecodeIsCanonical(Encode(values));
    }
  }

  /** For every list whatsoever, one pass through the codec normalises it for good. */
  lemma NormalisesOnce(values: seq<string>)
    ensures var once := Decode(Encode(values));
      Canonical(once) && Decode(Encode(once)) == once
  {
    DecodeIsCanonical(Encode(values));
    RoundTripIff(Decode(Encode(values)));
  }

  lemma EmptyBecomesOneEmpty()
    ensures Decode(Encode([])) == [""]
  {
    DecodeEncode([]);
    assert TrimAll([""]) == [""];
  }

  // ---------- The object ----------

  class Ports {
    var Values: seq<string>

    constructor (values: seq<string>)
      ensures Values == values
    {
      Values := values;
    }

    method MarshalJSON() returns (b: string)
      ensures b == Encode(Values) && EncodedText(Values, b)
    {
      EncodeText(Values);
      b := "\"" + Join(Values) + "\"";
    }

    /** Appends the decoded values to those the receiver already has. */
    method UnmarshalJSON(b: string)
      modifies this
      ensures Values == old(Values) + Decode(b)
    {
      var values := Split(b);
      for i := 0 to |values|
        invariant Values == old(Values) + Decode(b)[..i]
      {
        Values := Values + [Trim(values[i])];
      }
    }
  }

  /** A Ports value encoded and decoded into a fresh one: equal exactly for canonical lists. */
  method Transfer(p: Ports) returns (q: Ports)
    ensures fresh(q) && p.Values == old(p.Values)
    ensures Canonical(q.Values) && (q.Values == p.Values <==> Canonical(p.Values))
  {
    var b := p.MarshalJSON();
    q := new Ports([]);
    q.UnmarshalJSON(b);
    RoundTripIff(p.Values);
    DecodeIsCanonical(b);
    assert [] + Decode(b) == Decode(b);
  }

  // ---------- From service ports to the resource and back ----------

  /** The ports of a spec built from the ports of a service. */
  function SpecPorts(ports: seq<int>): seq<string> {
    seq(|ports|, i requires 0 <= i < |ports| => Itoa(ports[i]))
  }

  lemma ItoaCanonical(n: int)
    ensures CommaFree(Itoa(n)) && Unquoted(Itoa(n))
  {
    ItoaChars(n);
    forall i | 0 <= i < |Itoa(n)|
      ensures Itoa(n)[i] != ',' && Itoa(n)[i] != '\"'
    {
      assert IsDigit(Itoa(n)[i]) || Itoa(n)[i] == '-';
    }
  }

  /** The ports of a service pass through the codec unchanged, and can be read back as integers, if and
      only if there is at least one. */
  lemma ServicePortsRoundTrip(ports: seq<int>)
    ensures Decode(Encode(SpecPorts(ports))) == SpecPorts(ports) <==> ports != []
    ensures ports != [] ==> forall i :: 0 <= i < |ports| ==> Atoi(Decode(Encode(SpecPorts(ports)))[i]) == ports[i]
  {
    forall i | 0 <= i < |ports|
      ensures CommaFree(SpecPorts(ports)[i]) && Unquoted(SpecPorts(ports)[i])
      ensures Atoi(SpecPorts(ports)[i]) == ports[i]
    {
      ItoaCanonical(ports[i]);
      ItoaReadBack(ports[i]);
    }
    RoundTripIff(SpecPorts(ports));
  }
}
