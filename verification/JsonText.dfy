/** The collector's hand-written JSON string escaping and field lookup
    (tactile_collect_real.cpp:174-199 and 226-296). Characters are single bytes. */
module JsonText {
  import opened Basics

  // ---------------------------------------------------------------- escaping

  function HexDigit(n: nat): (d: char)
    requires n < 16
    ensures d != '\\' && d != '"'
  {
    "0123456789abcdef"[n]
  }

  predicate Control(c: char) { (c as int) < 0x20 }

  function EscapeChar(c: char): string {
    if c == '\\' then "\\\\"
    else if c == '"' then "\\\""
    else if c == '\n' then "\\n"
    else if c == '\r' then "\\r"
    else if c == '\t' then "\\t"
    else if Control(c) then "\\u00" + [HexDigit(c as int / 16), HexDigit(c as int % 16)]
    else [c]
  }

  function Escaped(s: string): string {
    if s == "" then "" else EscapeChar(s[0]) + Escaped(s[1..])
  }

  lemma OneMoreEscaped(out: string, s: string, i: nat)
    requires i < |s|
    ensures out + Escaped(s[i..]) == (out + EscapeChar(s[i])) + Escaped(s[i + 1..])
  {
    assert s[i..][0] == s[i] && s[i..][1..] == s[i + 1..];
    Regroup(out, EscapeChar(s[i]), Escaped(s[i + 1..]));
  }

  lemma Regroup(a: string, b: string, c: string)
    ensures a + (b + c) == (a + b) + c
  {
  }

  method JsonEscape(s: string) returns (out: string)
    ensures out == Escaped(s)
  {
    out := "";
    for i := 0 to |s|
      invariant out + Escaped(s[i..]) == Escaped(s)
    {
      OneMoreEscaped(out, s, i);
      out := out + EscapeChar(s[i]);
    }
  }

  // ---------------------------------------------------------------- reading a string back

  function Decoded(c: char): char {
    if c == 'n' then '\n' else if c == 'r' then '\r' else if c == 't' then '\t' else c
  }

  /** The text up to the next unescaped quote; None when there is none. */
  function ReadString(s: string, esc: bool): Option<string> {
    if s == "" then None
    else if esc then Prepend(Decoded(s[0]), ReadString(s[1..], false))
    else if s[0] == '\\' then ReadString(s[1..], true)
    else if s[0] == '"' then Some("")
    else Prepend(s[0], ReadString(s[1..], false))
  }

  function Prepend(c: char, r: Option<string>): Option<string> {
    match r case None => None case Some(t) => Some([c] + t)
  }

  predicate OccursAt(s: string, pat: string, k: nat) {
    k + |pat| <= |s| && forall i :: 0 <= i < |pat| ==> s[k + i] == pat[i]
  }

  /** `std::string::find`: the first occurrence at or after `from`. */
  function Find(s: string, pat: string, from: nat): (p: Option<nat>)
    ensures p.Some? ==> from <= p.value && p.value + |pat| <= |s|
    decreases |s| - from
  {
    if from + |pat| > |s| then None
    else if OccursAt(s, pat, from) then Some(from)
    else Find(s, pat, from + 1)
  }

  lemma {:induction false} FindIsFirst(s: string, pat: string, from: nat)
    ensures var p := Find(s, pat, from);
            && (p.Some? ==> OccursAt(s, pat, p.value))
            && (forall k: nat :: from <= k && OccursAt(s, pat, k) ==> p.Some? && p.value <= k)
    decreases |s| - from
  {
    if from + |pat| <= |s| && !OccursAt(s, pat, from) { FindIsFirst(s, pat, from + 1); }
  }

  predicate IsSpace(c: char) { c == ' ' || '\t' <= c <= '\r' }

  predicate IsDigit(c: char) { '0' <= c <= '9' }

  function SkipSpace(line: string, p: nat): (q: nat)
    requires p <= |line|
    ensures p <= q <= |line| && (q < |line| ==> !IsSpace(line[q]))
    decreases |line| - p
  {
    if p < |line| && IsSpace(line[p]) then SkipSpace(line, p + 1) else p
  }

  /** Position just after the colon that follows the first occurrence of the quoted key. */
  function ValueStart(line: string, key: string): (p: Option<nat>)
    ensures p.Some? ==> p.value <= |line| && (p.value < |line| ==> !IsSpace(line[p.value]))
  {
    ValueAfter(line, "\"" + key + "\"")
  }

  function ValueAfter(line: string, pat: string): (p: Option<nat>)
    ensures p.Some? ==> p.value <= |line| && (p.value < |line| ==> !IsSpace(line[p.value]))
  {
    match Find(line, pat, 0)
    case None => None
    case Some(at) =>
      match Find(line, ":", at + |pat|)
      case None => None
      case Some(colon) => Some(SkipSpace(line, colon + 1))
  }

  function StringValue(line: string, key: string, default_: string): string {
    match ValueStart(line, key)
    case None => default_
    case Some(p) => StringAt(line, p, default_)
  }

  function StringAt(line: string, p: nat, default_: string): string {
    if p >= |line| || line[p] != '"' then default_
    else Or(ReadString(line[p + 1..], false), default_)
  }

  function Or(r: Option<string>, default_: string): string {
    match r case None => default_ case Some(t) => t
  }

  function Attach(out: string, r: Option<string>): Option<string> {
    match r case None => None case Some(t) => Some(out + t)
  }

  lemma AttachTwice(a: string, b: string, r: Option<string>)
    ensures Attach(a, Attach(b, r)) == Attach(a + b, r)
  {
    if r.Some? { assert a + (b + r.value) == (a + b) + r.value; }
  }

  /** One character read after `out` has been. */
  lemma ReadOn(out: string, s: string, esc: bool)
    requires s != ""
    ensures Attach(out, ReadString(s, esc))
         == if esc then Attach(out + [Decoded(s[0])], ReadString(s[1..], false))
            else if s[0] == '\\' then Attach(out, ReadString(s[1..], true))
            else if s[0] == '"' then Some(out)
            else Attach(out + [s[0]], ReadString(s[1..], false))
  {
    var r := ReadString(s[1..], false);
    if esc { AttachTwice(out, [Decoded(s[0])], r); }
    else if s[0] == '"' { assert out + "" == out; }
    else { AttachTwice(out, [s[0]], r); }
  }

  method GetJsonStringValue(line: string, key: string, default_: string) returns (value: string)
    ensures value == StringValue(line, key, default_)
  {
    var start := ValueStart(line, key);
    if start.None? || start.value >= |line| || line[start.value] != '"' {
      return default_;
    }
    var p := start.value + 1;
    var out, esc := "", false;
    ghost var whole := ReadString(line[p..], false);
    assert Attach("", whole) == whole by { if whole.Some? { assert "" + whole.value == whole.value; } }
    while p < |line|
      invariant start.value < p <= |line|
      invariant Attach(out, ReadString(line[p..], esc)) == whole
    {
      var c := line[p];
      ReadOn(out, line[p..], esc);
      assert line[p..][0] == c && line[p..][1..] == line[p + 1..];
      if esc {
        out := out + [Decoded(c)];
        esc := false;
      } else if c == '\\' {
        esc := true;
      } else if c == '"' {
        return out;
      } else {
        out := out + [c];
      }
      p := p + 1;
    }
    return default_;
  }

  /** What the reader makes of one escaped character. */
  function Seen(c: char): string {
    if Control(c) && c != '\n' && c != '\r' && c != '\t'
    then "u00" + [HexDigit(c as int / 16), HexDigit(c as int % 16)]
    else [c]
  }

  function SeenAll(s: string): string {
    if s == "" then "" else Seen(s[0]) + SeenAll(s[1..])
  }

  /** Only newline, return and tab among the control characters. */
  predicate Survives(s: string) {
    forall i :: 0 <= i < |s| ==> Control(s[i]) ==> s[i] == '\n' || s[i] == '\r' || s[i] == '\t'
  }

  lemma {:induction false} SeenAllLonger(s: string)
    ensures |SeenAll(s)| >= |s|
    ensures SeenAll(s) == s <==> Survives(s)
    ensures !Survives(s) ==> |SeenAll(s)| > |s|
  {
    if s != "" {
      SeenAllLonger(s[1..]);
      assert s == [s[0]] + s[1..];
      assert Survives(s) <==> Survives(s[..1]) && Survives(s[1..]);
    }
  }

  lemma {:induction false} PlainPrefix(plain: string, rest: string)
    requires PlainText(plain)
    ensures ReadString(plain + rest, false) == Attach(plain, ReadString(rest, false))
  {
    if plain == "" {
      assert plain + rest == rest;
      var r := ReadString(rest, false);
      if r.Some? { assert "" + r.value == r.value; }
    } else {
      assert (plain + rest)[1..] == plain[1..] + rest;
      PlainPrefix(plain[1..], rest);
      var r := ReadString(rest, false);
      if r.Some? { assert [plain[0]] + (plain[1..] + r.value) == plain + r.value; }
    }
  }

  predicate PlainText(s: string) { forall i :: 0 <= i < |s| ==> s[i] != '\\' && s[i] != '"' }

  /** An escape is a backslash, the character it stands by, and at most plain text after it. */
  lemma EscapeHasPair(c: char)
    requires EscapeChar(c) != [c]
    ensures var e := EscapeChar(c);
            |e| >= 2 && e == ['\\', e[1]] + e[2..] && Seen(c) == [Decoded(e[1])] + e[2..] && PlainText(e[2..])
  {
    var e := EscapeChar(c);
    if |e| == 2 {
      assert e[2..] == "";
    } else {
      HexIsPlain(c);
    }
  }

  lemma HexIsPlain(c: char)
    requires Control(c) && c != '\n' && c != '\r' && c != '\t'
    ensures var e := EscapeChar(c);
            |e| == 6 && e == ['\\', e[1]] + e[2..] && Seen(c) == [Decoded(e[1])] + e[2..] && PlainText(e[2..])
  {
    var x, y := HexForm(c);
    assert EscapeChar(c)[2..] == ['0', '0', x, y];
  }

  lemma HexForm(c: char) returns (hi: char, lo: char)
    requires Control(c) && c != '\n' && c != '\r' && c != '\t'
    ensures hi == HexDigit(c as int / 16) && lo == HexDigit(c as int % 16)
    ensures EscapeChar(c) == ['\\', 'u', '0', '0', hi, lo] && Seen(c) == ['u', '0', '0', hi, lo]
  {
    hi, lo := HexDigit(c as int / 16), HexDigit(c as int % 16);
    assert "\\u00" + [hi, lo] == ['\\', 'u', '0', '0', hi, lo] && "u00" + [hi, lo] == ['u', '0', '0', hi, lo];
  }

  lemma OneEscaped(c: char, rest: string)
    ensures ReadString(EscapeChar(c) + rest, false) == Attach(Seen(c), ReadString(rest, false))
  {
    var e := EscapeChar(c);
    if e == [c] {
      PlainPrefix([c], rest);
    } else {
      EscapeHasPair(c);
      EscapePair(e[1], e[2..], rest);
    }
  }

  lemma EscapePair(d: char, plain: string, rest: string)
    requires PlainText(plain)
    ensures ReadString((['\\', d] + plain) + rest, false) == Attach([Decoded(d)] + plain, ReadString(rest, false))
  {
    var s := (['\\', d] + plain) + rest;
    assert s[1..][0] == d && s[1..][1..] == plain + rest;
    assert ReadString(s, false) == ReadString(s[1..], true);
    PlainPrefix(plain, rest);
    AttachTwice([Decoded(d)], plain, ReadString(rest, false));
  }

  lemma {:induction false} EscapedReadsAs(s: string, rest: string)
    ensures ReadString(Escaped(s) + rest, false) == Attach(SeenAll(s), ReadString(rest, false))
  {
    var r := ReadString(rest, false);
    if s == "" {
      assert Escaped(s) + rest == rest;
      if r.Some? { assert "" + r.value == r.value; }
    } else {
      Regroup(EscapeChar(s[0]), Escaped(s[1..]), rest);
      OneEscaped(s[0], Escaped(s[1..]) + rest);
      EscapedReadsAs(s[1..], rest);
      AttachTwice(Seen(s[0]), SeenAll(s[1..]), r);
    }
  }

  /** A field as the request writer lays it out. */
  function Field(key: string, value: string): string {
    "\"" + key + "\":\"" + Escaped(value) + "\""
  }

  /** Reading back a field written with the escaper returns its value exactly when the value's only
      control characters are newline, return and tab, whatever surrounds the field, as long as the
      quoted key does not occur before it. */
  lemma FieldReadsBack(pre: string, key: string, value: string, post: string, default_: string)
    requires Find(pre + Field(key, value) + post, "\"" + key + "\"", 0) == Some(|pre|)
    ensures StringValue(pre + Field(key, value) + post, key, default_) == SeenAll(value)
    ensures StringValue(pre + Field(key, value) + post, key, default_) == value <==> Survives(value)
  {
    var line, text := pre + Field(key, value) + post, "\"" + Escaped(value) + "\"";
    FieldIsMember(key, value, text, post);
    var start := MemberIsFound(pre, key, "", "", text, post, line);
    TextAtStart(line, start, value, post, default_);
    SeenAllLonger(value);
  }

  lemma FieldIsMember(key: string, value: string, text: string, post: string)
    requires text == "\"" + Escaped(value) + "\""
    ensures Field(key, value) == Member(key, "", "", text)
    ensures text + post == "\"" + (Escaped(value) + ("\"" + post))
  {
    assert "\"" + key + "\"" + "" + ":" + "" == "\"" + key + "\":";
  }

  lemma TextAtStart(line: string, start: nat, value: string, post: string, default_: string)
    requires start <= |line| && line[start..] == "\"" + (Escaped(value) + ("\"" + post))
    ensures StringAt(line, start, default_) == SeenAll(value)
  {
    var tail := Escaped(value) + ("\"" + post);
    StartsWith(line, start, "\"" + tail);
    assert line[start + 1..] == line[start..][1..] == tail;
    FieldTextReads(value, post);
  }

  lemma FieldTextReads(value: string, post: string)
    ensures ReadString(Escaped(value) + ("\"" + post), false) == Some(SeenAll(value))
  {
    var tail := "\"" + post;
    assert ReadString(tail, false) == Some("");
    EscapedReadsAs(value, tail);
    assert SeenAll(value) + "" == SeenAll(value);
  }

  // ---------------------------------------------------------------- a standard reader

  function HexValue(c: char): Option<nat> {
    if '0' <= c <= '9' then Some(c as int - '0' as int)
    else if 'a' <= c <= 'f' then Some(10 + (c as int - 'a' as int))
    else if 'A' <= c <= 'F' then Some(10 + (c as int - 'A' as int))
    else None
  }

  /** The character of a `\uXXXX` escape; halves of surrogate pairs are not read. */
  function HexChar(h: string): Option<char>
    requires |h| == 4
  {
    match (HexValue(h[0]), HexValue(h[1]), HexValue(h[2]), HexValue(h[3]))
    case (Some(a), Some(b), Some(c), Some(d)) =>
      var code := ((a * 16 + b) * 16 + c) * 16 + d;
      if code < 0xD800 then Some(code as char) else None
    case _ => None
  }

  /** The two-character escapes of section 7 of RFC 8259. */
  function ShortEscape(c: char): Option<char> {
    if c == '"' || c == '\\' || c == '/' then Some(c)
    else if c == 'b' then Some(8 as char)
    else if c == 't' then Some(9 as char)
    else if c == 'n' then Some(10 as char)
    else if c == 'f' then Some(12 as char)
    else if c == 'r' then Some(13 as char)
    else None
  }

  /** A string of section 7 of RFC 8259, read up to its closing quote: no raw control characters and no
      other escapes. */
  function ReadStandard(s: string): Option<string> {
    if s == "" || (s[0] as int) < 0x20 then None
    else if s[0] == '"' then Some("")
    else if s[0] != '\\' then Prepend(s[0], ReadStandard(s[1..]))
    else if |s| < 2 then None
    else if s[1] == 'u' then
      (if |s| < 6 then None
       else match HexChar(s[2..6]) case None => None case Some(c) => Prepend(c, ReadStandard(s[6..])))
    else match ShortEscape(s[1]) case None => None case Some(c) => Prepend(c, ReadStandard(s[2..]))
  }

  lemma OneEscapeIsStandard(c: char, rest: string)
    ensures ReadStandard(EscapeChar(c) + rest) == Prepend(c, ReadStandard(rest))
  {
    var e := EscapeChar(c);
    var s := e + rest;
    if |e| == 6 {
      HexEscapeIsStandard(c, rest);
    } else if |e| == 2 {
      assert s[2..] == rest;
    } else {
      assert s[1..] == rest;
    }
  }

  lemma HexEscapeIsStandard(c: char, rest: string)
    requires Control(c) && c != '\n' && c != '\r' && c != '\t'
    ensures ReadStandard(EscapeChar(c) + rest) == Prepend(c, ReadStandard(rest))
  {
    var hi, lo := HexForm(c);
    var s := EscapeChar(c) + rest;
    assert s[2..6] == ['0', '0', hi, lo] && s[6..] == rest;
    HexDigitValue(c as int / 16);
    HexDigitValue(c as int % 16);
    assert HexChar(['0', '0', hi, lo]) == Some(c);
  }

  lemma HexDigitValue(n: nat)
    requires n < 16
    ensures HexValue(HexDigit(n)) == Some(n)
  {
    assert "0123456789abcdef"[..10] == "0123456789" && "0123456789abcdef"[10..] == "abcdef";
  }

  /** A standard reader gets back every text exactly as it was, control characters included. */
  lemma {:induction false} StandardReaderRestores(s: string, rest: string)
    ensures ReadStandard(Escaped(s) + ("\"" + rest)) == Some(s)
  {
    if s == "" {
      assert Escaped(s) + ("\"" + rest) == "\"" + rest;
    } else {
      Regroup(EscapeChar(s[0]), Escaped(s[1..]), "\"" + rest);
      OneEscapeIsStandard(s[0], Escaped(s[1..]) + ("\"" + rest));
      StandardReaderRestores(s[1..], rest);
      assert s == [s[0]] + s[1..];
    }
  }

  // ---------------------------------------------------------------- numbers and the ok flag

  /** The conversion from `long` to `int`: 32-bit two's complement. */
  function ToInt32(v: int): (r: int)
    ensures -0x8000_0000 <= r < 0x8000_0000 && (r - v) % 0x1_0000_0000 == 0
    ensures -0x8000_0000 <= v < 0x8000_0000 ==> r == v
  {
    var m := v % 0x1_0000_0000;
    if m < 0x8000_0000 then m else m - 0x1_0000_0000
  }

  /** The accumulator is a 64-bit `long`, taken to wrap around. */
  function ToInt64(v: int): (r: int)
    ensures -0x8000_0000_0000_0000 <= r < 0x8000_0000_0000_0000 && (r - v) % 0x1_0000_0000_0000_0000 == 0
  {
    var m := v % 0x1_0000_0000_0000_0000;
    if m < 0x8000_0000_0000_0000 then m else m - 0x1_0000_0000_0000_0000
  }

  /** Wrapping at 64 bits changes a value by whole multiples of 2^32. */
  lemma WrapsWhole(v: int, exact: int, k: int) returns (k': int)
    requires v == exact + k * 0x1_0000_0000
    ensures ToInt64(v) == exact + k' * 0x1_0000_0000
  {
    var j := (ToInt64(v) - v) / 0x1_0000_0000_0000_0000;
    k' := k + j * 0x1_0000_0000;
  }

  /** So the narrowing to `int` gives what the exact number would, however many digits there were. */
  lemma SameLowBits(v: int, exact: int, k: int)
    requires v == exact + k * 0x1_0000_0000
    ensures ToInt32(v) == ToInt32(exact)
  {
    assert v % 0x1_0000_0000 == exact % 0x1_0000_0000;
  }

  lemma SameNegated(v: int, exact: int, k: int)
    requires v == exact + k * 0x1_0000_0000
    ensures ToInt32(ToInt64(-v)) == ToInt32(-exact)
  {
    var k' := WrapsWhole(-v, -exact, -k);
    SameLowBits(ToInt64(-v), -exact, k');
  }

  function Digits(line: string, p: nat, v: nat): nat
    requires p <= |line|
    decreases |line| - p
  {
    if p < |line| && IsDigit(line[p]) then Digits(line, p + 1, v * 10 + (line[p] as int - '0' as int)) else v
  }

  function IntValue(line: string, key: string, default_: int): int {
    match ValueStart(line, key)
    case None => default_
    case Some(p) =>
      var neg := p < |line| && line[p] == '-';
      var q := if neg then p + 1 else p;
      if q < |line| && IsDigit(line[q]) then
        var v: int := Digits(line, q, 0);
        ToInt32(if neg then -v else v)
      else default_
  }

  method GetJsonIntValue(line: string, key: string, default_: int) returns (value: int)
    ensures value == IntValue(line, key, default_)
  {
    var start := ValueStart(line, key);
    if start.None? {
      return default_;
    }
    var p := start.value;
    var neg := false;
    if p < |line| && line[p] == '-' {
      neg := true;
      p := p + 1;
    }
    var v, any := 0, false;
    ghost var q, exact: nat, k := p, 0, 0;
    while p < |line| && IsDigit(line[p])
      invariant q <= p <= |line|
      invariant Digits(line, p, exact) == Digits(line, q, 0) && v == exact + k * 0x1_0000_0000
      invariant any <==> p > q
      invariant p > q ==> IsDigit(line[q])
    {
      any := true;
      ghost var wide := v * 10 + (line[p] as int - '0' as int);
      v := ToInt64(v * 10 + (line[p] as int - '0' as int));
      exact := exact * 10 + (line[p] as int - '0' as int);
      k := WrapsWhole(wide, exact, 10 * k);
      p := p + 1;
    }
    if !any {
      return default_;
    }
    SameLowBits(v, exact, k);
    SameNegated(v, exact, k);
    return ToInt32(if neg then ToInt64(-v) else v);
  }

  predicate AckOk(line: string) {
    Find(line, "\"ok\":true", 0).Some? || Find(line, "\"ok\": true", 0).Some?
  }

  // ---------------------------------------------------------------- numbers read back

  function DecimalNat(n: nat): string {
    if n < 10 then ["0123456789"[n]] else DecimalNat(n / 10) + ["0123456789"[n % 10]]
  }

  /** An integer as a JSON writer prints it. */
  function Decimal(n: int): string { if n < 0 then "-" + DecimalNat(-n) else DecimalNat(n) }

  /** Blanks between the tokens of a JSON text (section 2 of RFC 8259). */
  predicate Blank(s: string) {
    forall i :: 0 <= i < |s| ==> s[i] == ' ' || s[i] == '\t' || s[i] == '\n' || s[i] == '\r'
  }

  /** The value is printed behind its key and a colon, with any blanks around the colon. */
  function Member(key: string, before: string, after: string, value: string): string {
    "\"" + key + "\"" + before + ":" + after + value
  }

  predicate NoDigitAt(s: string, p: nat) { p < |s| ==> !('0' <= s[p] <= '9') }

  lemma {:induction false} DecimalIsRead(line: string, p: nat, n: nat)
    requires OccursAt(line, DecimalNat(n), p)
    ensures Digits(line, p, 0) == Digits(line, p + |DecimalNat(n)|, n) && IsDigit(line[p])
  {
    var d := DecimalNat(n);
    assert line[p] == d[0] && line[p + |d| - 1] == d[|d| - 1];
    if n >= 10 {
      var init := DecimalNat(n / 10);
      forall i | 0 <= i < |init| ensures line[p + i] == init[i] { assert line[p + i] == d[i]; }
      DecimalIsRead(line, p, n / 10);
    }
  }

  lemma {:induction false} BlanksAreSkipped(line: string, p: nat, q: nat, blanks: string)
    requires p <= q <= |line| && Blank(blanks) && line[p..q] == blanks && (q < |line| ==> !IsSpace(line[q]))
    ensures SkipSpace(line, p) == q
    decreases q - p
  {
    if p < q {
      assert blanks[0] == line[p] && blanks[1..] == line[p + 1..q];
      BlanksAreSkipped(line, p + 1, q, blanks[1..]);
    }
  }

  /** The pieces of a line with a member in it, by their places; `pat` is the quoted key. */
  lemma MemberLayout(
    pre: string, pat: string, before: string, after: string, value: string, post: string, line: string)
    requires line == pre + (pat + before + ":" + after + value) + post
    ensures var colon := |pre| + |pat| + |before|;
            && colon < |line| && line[|pre| + |pat|..colon] == before && line[colon] == ':'
            && line[colon + 1..] == after + (value + post)
  {
    assert line == (pre + pat) + (before + (":" + (after + (value + post))));
  }

  lemma StartIsThere(line: string, pat: string, k: nat, colon: nat)
    requires Find(line, pat, 0) == Some(k) && Find(line, ":", k + |pat|) == Some(colon) && colon < |line|
    ensures ValueAfter(line, pat) == Some(SkipSpace(line, colon + 1))
  {
  }

  /** What follows the blanks behind the colon. */
  lemma TailAfterBlanks(line: string, p: nat, after: string, tail: string)
    requires p <= |line| && line[p..] == after + tail && Blank(after) && (tail != "" ==> !IsSpace(tail[0]))
    ensures line[SkipSpace(line, p)..] == tail
  {
    var q := p + |after|;
    assert line[p..q] == line[p..][..|after|] == after;
    assert line[q..] == line[p..][|after|..] == tail;
    StartsWith(line, q, tail);
    BlanksAreSkipped(line, p, q, after);
  }

  lemma ColonIsFound(line: string, at: nat, colon: nat, before: string)
    requires at <= colon < |line| && line[colon] == ':' && Blank(before) && line[at..colon] == before
    ensures Find(line, ":", at) == Some(colon)
  {
    assert OccursAt(line, ":", colon);
    FindIsFirst(line, ":", at);
    var p := Find(line, ":", at).value;
    assert line[p] == ":"[0];
    forall k | at <= k < colon ensures line[k] != ':' { assert before[k - at] == line[k]; }
  }

  lemma StartsWith(line: string, start: nat, tail: string)
    requires start <= |line| && line[start..] == tail
    ensures if tail == "" then start == |line| else start < |line| && line[start] == tail[0]
  {
    if tail != "" { assert line[start..][0] == line[start]; }
  }

  lemma MemberIsFound(
    pre: string, key: string, before: string, after: string, value: string, post: string, line: string)
    returns (start: nat)
    requires Blank(before) && Blank(after) && (value + post != "" ==> !IsSpace((value + post)[0]))
    requires line == pre + Member(key, before, after, value) + post
    requires Find(line, "\"" + key + "\"", 0) == Some(|pre|)
    ensures ValueStart(line, key) == Some(start) && start <= |line| && line[start..] == value + post
  {
    start := TailIsFound(pre, "\"" + key + "\"", before, after, value, post, line);
  }

  lemma TailIsFound(
    pre: string, pat: string, before: string, after: string, value: string, post: string, line: string)
    returns (start: nat)
    requires Blank(before) && Blank(after) && (value + post != "" ==> !IsSpace((value + post)[0]))
    requires line == pre + (pat + before + ":" + after + value) + post && Find(line, pat, 0) == Some(|pre|)
    ensures ValueAfter(line, pat) == Some(start) && start <= |line| && line[start..] == value + post
  {
    MemberLayout(pre, pat, before, after, value, post, line);
    start := TailIsThere(line, pat, |pre|, before, after, value + post);
  }

  lemma TailIsThere(line: string, pat: string, k: nat, before: string, after: string, tail: string)
    returns (start: nat)
    requires Blank(before) && Blank(after) && (tail != "" ==> !IsSpace(tail[0])) && Find(line, pat, 0) == Some(k)
    requires var colon := k + |pat| + |before|;
             && colon < |line| && line[k + |pat|..colon] == before && line[colon] == ':'
             && line[colon + 1..] == after + tail
    ensures ValueAfter(line, pat) == Some(start) && start <= |line| && line[start..] == tail
  {
    var colon := k + |pat| + |before|;
    start := SkipSpace(line, colon + 1);
    assert line[start..] == tail by { TailAfterBlanks(line, colon + 1, after, tail); }
    assert Find(line, ":", k + |pat|) == Some(colon) by { ColonIsFound(line, k + |pat|, colon, before); }
    StartIsThere(line, pat, k, colon);
  }

  /** A number printed in decimal is read back as itself when it fits 32 bits, and as its low 32 bits when
      it does not, whatever surrounds the member, as long as the quoted key does not occur before it and no
      further digit follows. */
  lemma NumberReadsBack(
    pre: string, key: string, before: string, after: string, n: int, post: string, line: string, default_: int)
    requires Blank(before) && Blank(after) && NoDigitAt(post, 0)
    requires line == pre + Member(key, before, after, Decimal(n)) + post
    requires Find(line, "\"" + key + "\"", 0) == Some(|pre|)
    ensures IntValue(line, key, default_) == ToInt32(n)
    ensures -0x8000_0000 <= n < 0x8000_0000 ==> IntValue(line, key, default_) == n
  {
    var value := Decimal(n);
    DecimalStarts(n);
    assert (value + post)[0] == value[0];
    var start := MemberIsFound(pre, key, before, after, value, post, line);
    NumberAt(line, key, start, n, post, default_);
  }

  lemma NumberAt(line: string, key: string, start: nat, n: int, post: string, default_: int)
    requires ValueStart(line, key) == Some(start) && start <= |line|
    requires line[start..] == Decimal(n) + post && NoDigitAt(post, 0)
    ensures IntValue(line, key, default_) == ToInt32(n)
  {
    var m: nat := if n < 0 then -n else n;
    DecimalStarts(n);
    StartsWith(line, start, Decimal(n) + post);
    AfterSign(line, start, n, m, post);
    DigitsAt(line, if n < 0 then start + 1 else start, m, post);
    SignedValue(line, key, start, n, m, default_);
  }

  lemma AfterSign(line: string, start: nat, n: int, m: nat, post: string)
    requires start < |line| && line[start..] == Decimal(n) + post && m == if n < 0 then -n else n
    ensures line[if n < 0 then start + 1 else start..] == DecimalNat(m) + post
  {
    if n < 0 { DropFirst(line, start, '-', DecimalNat(m), post); }
  }

  lemma DropFirst(line: string, start: nat, c: char, d: string, post: string)
    requires start < |line| && line[start..] == [c] + d + post
    ensures line[start + 1..] == d + post
  {
    assert line[start + 1..] == line[start..][1..];
  }

  lemma SignedValue(line: string, key: string, start: nat, n: int, m: nat, default_: int)
    requires ValueStart(line, key) == Some(start) && start < |line| && m == (if n < 0 then -n else n)
    requires line[start] == '-' <==> n < 0
    requires var q := if n < 0 then start + 1 else start; q < |line| && IsDigit(line[q]) && Digits(line, q, 0) == m
    ensures IntValue(line, key, default_) == ToInt32(n)
  {
  }

  lemma {:induction false} DecimalStarts(n: int)
    ensures Decimal(n) != "" && (if n < 0 then Decimal(n)[0] == '-' else IsDigit(Decimal(n)[0]))
    decreases if n < 0 then -n + 1 else n
  {
    if n >= 10 { DecimalStarts(n / 10); }
  }

  lemma DigitsAt(line: string, q: nat, m: nat, post: string)
    requires q <= |line| && line[q..] == DecimalNat(m) + post && NoDigitAt(post, 0)
    ensures q < |line| && IsDigit(line[q]) && Digits(line, q, 0) == m
  {
    var d, tail := DecimalNat(m), line[q..];
    DecimalStarts(m);
    assert Decimal(m) == d;
    forall i | 0 <= i < |d| ensures line[q + i] == d[i] { assert tail[i] == line[q + i]; }
    DecimalIsRead(line, q, m);
    if q + |d| < |line| { assert line[q + |d|] == tail[|d|] == post[0]; }
  }

  /** Where no digit stands where the number should begin, with a minus sign or without, the field has its
      default, and so it has when its key is missing. */
  lemma DefaultWithoutNumber(
    pre: string, key: string, before: string, after: string, sign: string, post: string, line: string, default_: int)
    requires Blank(before) && Blank(after) && (sign == "" || sign == "-") && NoDigitAt(post, 0)
    requires sign == "" && post != "" ==> !IsSpace(post[0]) && post[0] != '-'
    requires Find(line, "\"" + key + "\"", 0) == None || (line == pre + Member(key, before, after, sign) + post
             && Find(line, "\"" + key + "\"", 0) == Some(|pre|))
    ensures IntValue(line, key, default_) == default_
  {
    if Find(line, "\"" + key + "\"", 0).Some? {
      var start := MemberIsFound(pre, key, before, after, sign, post, line);
      NoNumberAt(line, key, start, sign, post, default_);
    }
  }

  lemma NoNumberAt(line: string, key: string, start: nat, sign: string, post: string, default_: int)
    requires ValueStart(line, key) == Some(start) && start <= |line| && line[start..] == sign + post
    requires (sign == "" || sign == "-") && NoDigitAt(post, 0) && (sign == "" && post != "" ==> post[0] != '-')
    ensures IntValue(line, key, default_) == default_
  {
    StartsWith(line, start, sign + post);
    if sign == "-" { assert line[start + 1..] == line[start..][1..] == post; StartsWith(line, start + 1, post); }
  }

  /** A text field has its default when its key is missing, when its value does not begin with a quote, and
      when the closing quote has not come. */
  lemma DefaultWithoutText(
    pre: string, key: string, before: string, after: string, value: string, line: string, default_: string)
    requires Blank(before) && Blank(after) && (value != "" ==> !IsSpace(value[0]))
    requires Find(line, "\"" + key + "\"", 0) == None || (line == pre + Member(key, before, after, value) + ""
             && Find(line, "\"" + key + "\"", 0) == Some(|pre|))
    requires value == "" || value[0] != '"' || exists text :: value == "\"" + Escaped(text)
    ensures StringValue(line, key, default_) == default_
  {
    if Find(line, "\"" + key + "\"", 0).Some? {
      assert value + "" == value;
      var start := MemberIsFound(pre, key, before, after, value, "", line);
      TextAt(line, start, value, default_);
    }
  }

  lemma TextAt(line: string, start: nat, value: string, default_: string)
    requires start <= |line| && line[start..] == value
    requires value == "" || value[0] != '"' || exists text :: value == "\"" + Escaped(text)
    ensures StringAt(line, start, default_) == default_
  {
    StartsWith(line, start, value);
    if value != "" && value[0] == '"' {
      var text :| value == "\"" + Escaped(text);
      assert line[start + 1..] == line[start..][1..] == Escaped(text) + "";
      EscapedReadsAs(text, "");
    }
  }
}
