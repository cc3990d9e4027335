/** HTTP/1.1 chunked transfer coding as the agent's server reads and writes it
    (src/agent_server.rs:290-331, 732-740); section 7.1 of RFC 9112. Lines are byte strings:
    the source's lossy UTF-8 conversion is the identity on ASCII. */
module ChunkedCoding {
  import opened Bytes

  const CRLF: Data := [13, 10]
  const LAST_CHUNK: Data := [48, 13, 10, 13, 10] // "0\r\n\r\n"
  const USIZE_LIMIT: nat := 0x1_0000_0000_0000_0000
  const LONGEST_LINE: nat := 1023

  datatype ReadError = Closed | LineTooLong | BadSize | BodyTooLarge

  // ------------------------------------------------------ hexadecimal sizes

  /** A digit as `{:x}` prints it. */
  function HexDigit(d: nat): Byte
    requires d < 16
  {
    if d < 10 then 48 + d else 87 + d
  }

  function HexPrint(n: nat): (text: Data)
    ensures text != []
  {
    if n < 16 then [HexDigit(n)] else HexPrint(n / 16) + [HexDigit(n % 16)]
  }

  function DigitValue(c: Byte): Option<nat> {
    if 48 <= c <= 57 then Some(c - 48)
    else if 97 <= c <= 102 then Some(c - 87)
    else if 65 <= c <= 70 then Some(c - 55)
    else None
  }

  /** The number a string of hexadecimal digits denotes. */
  function HexValue(digits: Data): Option<nat> {
    if digits == [] then Some(0)
    else
      var high := HexValue(digits[..|digits| - 1]);
      var low := DigitValue(digits[|digits| - 1]);
      if high.Some? && low.Some? then Some(16 * high.value + low.value) else None
  }

  /** `usize::from_str_radix(text, 16)`: one leading plus sign is allowed. */
  function ParseUsize(text: Data): Option<nat> {
    var digits := if |text| > 1 && text[0] == 43 then text[1..] else text;
    var n := HexValue(digits);
    if digits != [] && n.Some? && n.value < USIZE_LIMIT then n else None
  }

  lemma {:induction false} HexValueOfPrint(n: nat)
    ensures HexValue(HexPrint(n)) == Some(n)
    ensures forall i | 0 <= i < |HexPrint(n)| :: DigitValue(HexPrint(n)[i]).Some?
  {
    if n < 16 {
      assert HexPrint(n)[..0] == [];
    } else {
      HexValueOfPrint(n / 16);
      assert HexPrint(n)[..|HexPrint(n)| - 1] == HexPrint(n / 16);
    }
  }

  function Pow16(k: nat): nat { if k == 0 then 1 else 16 * Pow16(k - 1) }

  lemma {:induction false} HexLength(n: nat, k: nat)
    requires 1 <= k && n < Pow16(k)
    ensures |HexPrint(n)| <= k
  {
    if n >= 16 {
      assert k > 1 by { assert Pow16(1) == 16 * Pow16(0); }
      HexLength(n / 16, k - 1);
    }
  }

  lemma UsizeIsSixteenDigits()
    ensures Pow16(16) == USIZE_LIMIT
  {
    assert Pow16(4) == 0x1_0000;
    assert Pow16(8) == 0x1_0000_0000;
    assert Pow16(12) == 0x1_0000_0000_0000;
  }

  predicate Whitespace(c: Byte) { 9 <= c <= 13 || c == 32 }

  function TrimStart(s: Data): Data {
    if s != [] && Whitespace(s[0]) then TrimStart(s[1..]) else s
  }

  function TrimEnd(s: Data): Data {
    if s != [] && Whitespace(s[|s| - 1]) then TrimEnd(s[..|s| - 1]) else s
  }

  function BeforeSemicolon(s: Data): Data {
    if s == [] || s[0] == 59 then [] else [s[0]] + BeforeSemicolon(s[1..])
  }

  /** The size a chunk's first line announces. */
  function SizeOf(line: Data): Option<nat> { ParseUsize(TrimEnd(TrimStart(BeforeSemicolon(line)))) }

  lemma {:induction false} NoSemicolon(s: Data)
    requires forall i | 0 <= i < |s| :: s[i] != 59
    ensures BeforeSemicolon(s) == s
  {
    if s != [] {
      NoSemicolon(s[1..]);
    }
  }

  lemma DigitsAreTheSize(text: Data)
    requires text != [] && forall i | 0 <= i < |text| :: DigitValue(text[i]).Some?
    ensures TrimEnd(TrimStart(BeforeSemicolon(text))) == text
  {
    NoSemicolon(text);
    assert DigitValue(text[0]).Some? && DigitValue(text[|text| - 1]).Some?;
  }

  /** Printing and parsing a size are inverse over the whole range of usize. */
  lemma SizeRoundTrip(n: nat)
    ensures SizeOf(HexPrint(n)) == if n < USIZE_LIMIT then Some(n) else None
    ensures n < USIZE_LIMIT ==> Clean(HexPrint(n))
  {
    var text := HexPrint(n);
    HexValueOfPrint(n);
    DigitsAreTheSize(text);
    assert DigitValue(text[0]).Some?;
    if n < USIZE_LIMIT {
      UsizeIsSixteenDigits();
      HexLength(n, 16);
      NoReturnIsClean(text);
    }
  }

  // ------------------------------------------------- every spelling of a size

  /** Letters in lower case. */
  function Lower(text: Data): (r: Data)
    ensures |r| == |text|
  {
    seq(|text|, i requires 0 <= i < |text| => if 65 <= text[i] <= 90 then text[i] + 32 else text[i])
  }

  function Noughts(k: nat): Data { seq(k, _ => 48) }

  /** One way to write a size: blanks, an optional plus sign, digits, blanks, an extension. */
  datatype Spelling = Spelling(before: Data, plus: bool, digits: Data, after: Data, extension: Data) {
    function Text(): Data { before + ((if plus then [43] else []) + digits) + after + extension }

    /** The digits, in either case, are those that the size prints as, behind any number of noughts. */
    ghost predicate Spells(n: nat) {
      && (forall i | 0 <= i < |before| :: Blank(before[i])) && (forall i | 0 <= i < |after| :: Blank(after[i]))
      && (exists k: nat :: Lower(digits) == Noughts(k) + HexPrint(n))
      && (extension == [] || extension[0] == 59)
    }
  }

  /** Tab, line feed, vertical tab, form feed, carriage return or space. */
  predicate Blank(c: Byte) { c == 9 || c == 10 || c == 11 || c == 12 || c == 13 || c == 32 }

  lemma {:induction false} LowerKeepsValue(text: Data)
    ensures HexValue(Lower(text)) == HexValue(text)
  {
    if text != [] {
      var n := |text| - 1;
      LowerKeepsValue(text[..n]);
      assert Lower(text)[..n] == Lower(text[..n]);
      assert Lower(text)[n] == if 65 <= text[n] <= 90 then text[n] + 32 else text[n];
    }
  }

  lemma {:induction false} NoughtsCountNothing(k: nat, text: Data)
    ensures HexValue(Noughts(k) + text) == HexValue(text)
    decreases k + |text|
  {
    if text != [] {
      var n := |text| - 1;
      NoughtsCountNothing(k, text[..n]);
      assert (Noughts(k) + text)[..k + n] == Noughts(k) + text[..n];
    } else if k > 0 {
      NoughtsCountNothing(k - 1, []);
      assert (Noughts(k) + [])[..k - 1] == Noughts(k - 1) + [];
    }
  }

  /** Digits denote a number exactly if they print it, but for case and leading noughts. */
  lemma {:induction false} DigitsAre(digits: Data, n: nat) returns (k: nat)
    requires digits != [] && HexValue(digits) == Some(n)
    ensures Lower(digits) == Noughts(k) + HexPrint(n)
  {
    var m := |digits| - 1;
    var init, c := digits[..m], digits[m];
    var v := DigitValue(c).value;
    assert HexDigit(v) == if 65 <= c <= 90 then c + 32 else c;
    assert Lower(digits) == Lower(init) + [HexDigit(v)];
    if init == [] {
      k := 0;
      assert Noughts(0) + HexPrint(n) == [HexDigit(v)];
    } else {
      var high := HexValue(init).value;
      k := DigitsAre(init, high);
      if high == 0 {
        assert HexPrint(0) == [48];
        assert Noughts(k) + [48] == Noughts(k + 1);
        assert HexPrint(n) == [HexDigit(v)];
        k := k + 1;
      } else {
        assert n / 16 == high && n % 16 == v;
        assert HexPrint(n) == HexPrint(high) + [HexDigit(v)];
        Associates(Noughts(k), HexPrint(high), [HexDigit(v)]);
      }
    }
  }

  lemma DigitsHaveValue(digits: Data, k: nat, n: nat)
    requires Lower(digits) == Noughts(k) + HexPrint(n)
    ensures HexValue(digits) == Some(n) && digits != []
    ensures forall i | 0 <= i < |digits| :: DigitValue(digits[i]).Some?
  {
    LowerKeepsValue(digits);
    NoughtsCountNothing(k, HexPrint(n));
    HexValueOfPrint(n);
    AllDigits(digits);
  }

  lemma {:induction false} AllDigits(digits: Data)
    requires HexValue(digits).Some?
    ensures forall i | 0 <= i < |digits| :: DigitValue(digits[i]).Some?
  {
    if digits != [] {
      AllDigits(digits[..|digits| - 1]);
    }
  }

  lemma {:induction false} TrimmedStart(before: Data, core: Data)
    requires (forall i | 0 <= i < |before| :: Blank(before[i])) && core != [] && !Blank(core[0])
    ensures TrimStart(before + core) == core
  {
    if before != [] {
      TrimmedStart(before[1..], core);
      assert (before + core)[1..] == before[1..] + core;
    } else {
      assert before + core == core;
    }
  }

  lemma {:induction false} TrimmedEnd(core: Data, after: Data)
    requires (forall i | 0 <= i < |after| :: Blank(after[i])) && core != [] && !Blank(core[|core| - 1])
    ensures TrimEnd(core + after) == core
  {
    if after != [] {
      var n := |after| - 1;
      TrimmedEnd(core, after[..n]);
      assert (core + after)[..|core| + n] == core + after[..n];
    } else {
      assert core + after == core;
    }
  }

  lemma {:induction false} BlanksBefore(s: Data) returns (before: Data)
    ensures s == before + TrimStart(s) && forall i | 0 <= i < |before| :: Blank(before[i])
  {
    if s != [] && Whitespace(s[0]) {
      var more := BlanksBefore(s[1..]);
      before := [s[0]] + more;
    } else {
      before := [];
    }
  }

  lemma {:induction false} BlanksAfter(s: Data) returns (after: Data)
    ensures s == TrimEnd(s) + after && forall i | 0 <= i < |after| :: Blank(after[i])
  {
    if s != [] && Whitespace(s[|s| - 1]) {
      var more := BlanksAfter(s[..|s| - 1]);
      after := more + [s[|s| - 1]];
    } else {
      after := [];
    }
  }

  lemma {:induction false} CutAtSemicolon(text: Data, extension: Data)
    requires (forall i | 0 <= i < |text| :: text[i] != 59) && (extension == [] || extension[0] == 59)
    ensures BeforeSemicolon(text + extension) == text
  {
    if text != [] {
      CutAtSemicolon(text[1..], extension);
      assert (text + extension)[1..] == text[1..] + extension;
    } else {
      assert text + extension == extension;
    }
  }

  lemma {:induction false} ExtensionAfter(s: Data) returns (extension: Data)
    ensures s == BeforeSemicolon(s) + extension && (extension == [] || extension[0] == 59)
  {
    if s == [] || s[0] == 59 {
      extension := s;
    } else {
      extension := ExtensionAfter(s[1..]);
    }
  }

  lemma SpelledIsRead(w: Spelling, n: nat)
    requires w.Spells(n) && n < USIZE_LIMIT
    ensures SizeOf(w.Text()) == Some(n)
  {
    var k: nat :| Lower(w.digits) == Noughts(k) + HexPrint(n);
    DigitsHaveValue(w.digits, k, n);
    var core := (if w.plus then [43] else []) + w.digits;
    var text := w.before + core + w.after;
    assert core[|core| - 1] == w.digits[|w.digits| - 1] && (core[0] == 43 || core[0] == w.digits[0]);
    assert DigitValue(core[|core| - 1]).Some? && !Blank(core[|core| - 1]) && !Blank(core[0]);
    assert forall i | 0 <= i < |core| :: core[i] == 43 || DigitValue(core[i]).Some?;
    assert text + w.extension == w.Text();
    CutAtSemicolon(text, w.extension);
    Associates(w.before, core, w.after);
    TrimmedStart(w.before, core + w.after);
    TrimmedEnd(core, w.after);
    CoreIsRead(w.plus, w.digits, n);
  }

  lemma CoreIsRead(plus: bool, digits: Data, n: nat)
    requires digits != [] && HexValue(digits) == Some(n) && n < USIZE_LIMIT
    requires DigitValue(digits[0]).Some?
    ensures ParseUsize((if plus then [43] else []) + digits) == Some(n)
  {
    if plus {
      assert ([43] + digits)[1..] == digits;
    } else {
      assert [] + digits == digits;
    }
  }

  lemma ReadIsSpelled(s: Data) returns (w: Spelling)
    requires SizeOf(s).Some?
    ensures w.Spells(SizeOf(s).value) && s == w.Text()
  {
    var text := BeforeSemicolon(s);
    var inner := TrimStart(text);
    var core := TrimEnd(inner);
    var extension := ExtensionAfter(s);
    var before := BlanksBefore(text);
    var after := BlanksAfter(inner);
    var plus, digits := CoreIsSpelled(core, SizeOf(s).value);
    w := Spelling(before, plus, digits, after, extension);
    Associates(before, core, after);
  }

  lemma CoreIsSpelled(core: Data, n: nat) returns (plus: bool, digits: Data)
    requires ParseUsize(core) == Some(n)
    ensures core == (if plus then [43] else []) + digits
    ensures exists k: nat :: Lower(digits) == Noughts(k) + HexPrint(n)
  {
    plus := |core| > 1 && core[0] == 43;
    digits := if plus then core[1..] else core;
    var k := DigitsAre(digits, n);
  }

  /** A size line is read as a number exactly if it spells it: digits in either case, leading noughts,
      a plus sign, blanks around them and an extension change nothing, and nothing else is taken. */
  lemma SizeOfIsExact(s: Data, n: nat)
    ensures SizeOf(s) == Some(n) <==> n < USIZE_LIMIT && exists w: Spelling :: w.Spells(n) && s == w.Text()
  {
    if SizeOf(s) == Some(n) {
      var w := ReadIsSpelled(s);
    }
    if w: Spelling :| n < USIZE_LIMIT && w.Spells(n) && s == w.Text() {
      SpelledIsRead(w, n);
    }
  }

  // ------------------------------------------------------------------ lines

  predicate CrlfAt(s: Data, i: nat) { i + 2 <= |s| && s[i] == 13 && s[i + 1] == 10 }

  /** Where the first CRLF starts, or the length when there is none. */
  function NextCrlf(s: Data): (k: nat)
    ensures k <= |s| && (k < |s| ==> CrlfAt(s, k))
    ensures forall i | 0 <= i < k :: !CrlfAt(s, i)
  {
    if s == [] || CrlfAt(s, 0) then 0
    else
      var k := 1 + NextCrlf(s[1..]);
      assert forall i | 1 <= i < k :: !CrlfAt(s[1..], i - 1) && (CrlfAt(s, i) ==> CrlfAt(s[1..], i - 1));
      k
  }

  lemma NextCrlfIs(s: Data, k: nat)
    requires CrlfAt(s, k) && forall i | 0 <= i < k :: !CrlfAt(s, i)
    ensures NextCrlf(s) == k
  {
    assert NextCrlf(s) < |s| ==> CrlfAt(s, NextCrlf(s));
  }

  /** A line without its CRLF and what follows it. */
  function Line(s: Data): Result<(Data, Data), ReadError> {
    var k := NextCrlf(s);
    if k < |s| && k <= LONGEST_LINE then Ok((s[..k], s[k + 2..]))
    else if |s| > LONGEST_LINE + 1 then Err(LineTooLong)
    else Err(Closed)
  }

  /** What is left in the input once a line was read, or could not be. */
  function LineRest(s: Data): Data {
    if Line(s).Ok? then Line(s).value.1
    else if |s| > LONGEST_LINE + 1 then s[LONGEST_LINE + 2..]
    else []
  }

  /** Reading a line gives this result and leaves this much. */
  predicate ReadsLine(s: Data, r: Result<Data, ReadError>, rest: Data) {
    && r == (if Line(s).Ok? then Ok(Line(s).value.0) else Err(Line(s).error))
    && rest == LineRest(s)
  }

  /** A line that can be sent: short enough and with no CRLF of its own. */
  predicate Clean(line: Data) {
    |line| <= LONGEST_LINE && forall i | 0 <= i < |line| :: !CrlfAt(line + CRLF, i)
  }

  lemma NoReturnIsClean(line: Data)
    requires |line| <= LONGEST_LINE && forall i | 0 <= i < |line| :: line[i] != 13
    ensures Clean(line)
  {
  }

  /** A line is read exactly when the input starts with it and a CRLF. */
  lemma LineIs(s: Data, line: Data, rest: Data)
    ensures Line(s) == Ok((line, rest)) <==> Clean(line) && s == line + CRLF + rest
  {
    if Line(s) == Ok((line, rest)) {
      assert s == line + CRLF + rest;
      forall i | 0 <= i < |line| ensures !CrlfAt(line + CRLF, i) {
        assert !CrlfAt(s, i);
      }
    }
    if Clean(line) && s == line + CRLF + rest {
      forall i | 0 <= i < |line| ensures !CrlfAt(s, i) {
        assert !CrlfAt(line + CRLF, i);
      }
      NextCrlfIs(s, |line|);
      assert s[..|line|] == line && s[|line| + 2..] == rest;
    }
  }

  ghost predicate NoCrlf(s: Data) { forall i | 0 <= i < |s| :: !CrlfAt(s, i) }

  /** What one more byte does to a line that has not ended yet. */
  lemma OneMoreByte(line: Data, c: Byte, rest: Data)
    requires NoCrlf(line) && |line| <= LONGEST_LINE + 1
    ensures var n, all := |line|, line + [c] + rest;
            if n >= 1 && line[n - 1] == 13 && c == 10 then ReadsLine(all, Ok((line + [c])[..n - 1]), rest)
            else NoCrlf(line + [c]) && (n == LONGEST_LINE + 1 ==> ReadsLine(all, Err(LineTooLong), rest))
  {
    var n, more, all := |line|, line + [c], line + [c] + rest;
    if n >= 1 && line[n - 1] == 13 && c == 10 {
      var text := more[..n - 1];
      assert all == text + CRLF + rest;
      assert forall i | 0 <= i < |text| :: CrlfAt(text + CRLF, i) ==> CrlfAt(line, i);
      LineIs(all, text, rest);
    } else {
      forall i | 0 <= i < |more| ensures !CrlfAt(more, i) {
        assert CrlfAt(more, i) && i < n - 1 ==> CrlfAt(line, i);
      }
      var k := NextCrlf(all);
      assert k < |more| - 1 ==> CrlfAt(more, k);
    }
  }

  lemma NeverEnds(s: Data)
    requires |s| <= LONGEST_LINE + 1 && NoCrlf(s)
    ensures ReadsLine(s, Err(Closed), [])
  {
    assert NextCrlf(s) == |s|;
  }

  /** A line of up to 1023 bytes is read, a longer one is refused. */
  lemma LongestLineIs(line: Data, rest: Data)
    requires forall i | 0 <= i < |line| :: line[i] != 13
    ensures |line| <= 1023 ==> Line(line + [13, 10] + rest) == Ok((line, rest))
    ensures |line| > 1023 ==> Line(line + [13, 10] + rest) == Err(LineTooLong)
  {
    var s := line + CRLF + rest;
    if |line| <= 1023 {
      NoReturnIsClean(line);
      LineIs(s, line, rest);
    } else {
      assert forall i | 0 <= i < |line| :: s[i] == line[i];
      assert NextCrlf(s) >= |line|;
    }
  }

  // ---------------------------------------------------------------- decoding

  function SkipTrailers(s: Data): Result<Data, ReadError>
    decreases |s|
  {
    var line := Line(s);
    if line.Err? then Err(line.error)
    else if line.value.0 == [] then Ok(line.value.1)
    else SkipTrailers(line.value.1)
  }

  /** The body read after what was read before, and the input left over. */
  function Decode(before: Data, s: Data, limit: nat): Result<(Data, Data), ReadError>
    decreases |s|
  {
    var line := Line(s);
    if line.Err? then Err(line.error) else
    var size := SizeOf(line.value.0);
    if size.None? then Err(BadSize)
    else if size.value == 0 then
      var rest := SkipTrailers(line.value.1);
      if rest.Err? then Err(rest.error) else Ok((before, rest.value))
    else if |before| + size.value > limit then Err(BodyTooLarge)
    else if |line.value.1| < size.value then Err(Closed)
    else
      var tail := Line(line.value.1[size.value..]);
      if tail.Err? then Err(tail.error)
      else Decode(before + line.value.1[..size.value], tail.value.1, limit)
  }

  function TrailersRest(s: Data): Data
    decreases |s|
  {
    var line := Line(s);
    if line.Err? || line.value.0 == [] then LineRest(s) else TrailersRest(line.value.1)
  }

  /** What is left in the input once Decode is through, or had to give up. */
  function DecodeRest(before: Data, s: Data, limit: nat): Data
    decreases |s|
  {
    var line := Line(s);
    if line.Err? then LineRest(s) else
    var size := SizeOf(line.value.0);
    if size.None? then line.value.1
    else if size.value == 0 then TrailersRest(line.value.1)
    else if |before| + size.value > limit then line.value.1
    else if |line.value.1| < size.value then []
    else
      var tail := Line(line.value.1[size.value..]);
      if tail.Err? then LineRest(line.value.1[size.value..])
      else DecodeRest(before + line.value.1[..size.value], tail.value.1, limit)
  }

  predicate Suffix(rest: Data, s: Data) { |rest| <= |s| && rest == s[|s| - |rest|..] }

  lemma SuffixOfSuffix(a: Data, b: Data, c: Data)
    requires Suffix(a, b) && Suffix(b, c)
    ensures Suffix(a, c)
  {
  }

  lemma LineRestIsSuffix(s: Data)
    ensures Suffix(LineRest(s), s)
  {
  }

  lemma {:induction false} TrailersRestIsSuffix(s: Data)
    ensures Suffix(TrailersRest(s), s)
    ensures SkipTrailers(s).Ok? ==> TrailersRest(s) == SkipTrailers(s).value
    decreases |s|
  {
    LineRestIsSuffix(s);
    if Line(s).Ok? && Line(s).value.0 != [] {
      TrailersRestIsSuffix(Line(s).value.1);
      SuffixOfSuffix(TrailersRest(s), Line(s).value.1, s);
    }
  }

  /** However the decoder ends, it has consumed a front part of the input and nothing else, and
      where it succeeds exactly what it says. */
  lemma {:induction false} DecodeConsumesAFront(before: Data, s: Data, limit: nat)
    ensures Suffix(DecodeRest(before, s, limit), s)
    ensures Decode(before, s, limit).Ok? ==> DecodeRest(before, s, limit) == Decode(before, s, limit).value.1
    decreases |s|
  {
    LineRestIsSuffix(s);
    if Line(s).Ok? && SizeOf(Line(s).value.0).Some? {
      var size, more := SizeOf(Line(s).value.0).value, Line(s).value.1;
      if size == 0 {
        TrailersRestIsSuffix(more);
        SuffixOfSuffix(TrailersRest(more), more, s);
      } else if |before| + size <= limit && size <= |more| {
        var after := more[size..];
        SuffixOfSuffix(after, more, s);
        LineRestIsSuffix(after);
        SuffixOfSuffix(LineRest(after), after, s);
        if Line(after).Ok? {
          DecodeConsumesAFront(before + more[..size], Line(after).value.1, limit);
          SuffixOfSuffix(DecodeRest(before, s, limit), Line(after).value.1, s);
        }
      }
    }
  }

  // ------------------------------------------------- what the decoder accepts

  /** One chunk: the line that announces it, its bytes, and the rest of the line they end on. */
  datatype Piece = Piece(line: Data, data: Data, tail: Data) {
    function Wire(): Data { line + CRLF + (data + (tail + CRLF)) }
    predicate Legal() { Clean(line) && Clean(tail) && data != [] && SizeOf(line) == Some(|data|) }
  }

  datatype Body = Body(pieces: seq<Piece>, last: Data, trailers: seq<Data>) {
    ghost predicate Legal() {
      && (forall i | 0 <= i < |pieces| :: pieces[i].Legal())
      && Clean(last) && SizeOf(last) == Some(0)
      && forall i | 0 <= i < |trailers| :: Clean(trailers[i]) && trailers[i] != []
    }
  }

  function TrailerWire(trailers: seq<Data>): Data {
    if trailers == [] then CRLF else trailers[0] + CRLF + TrailerWire(trailers[1..])
  }

  function BodyWire(b: Body): Data
    decreases |b.pieces|
  {
    if b.pieces == [] then b.last + CRLF + TrailerWire(b.trailers)
    else b.pieces[0].Wire() + BodyWire(b.(pieces := b.pieces[1..]))
  }

  function Content(pieces: seq<Piece>): Data {
    if pieces == [] then [] else pieces[0].data + Content(pieces[1..])
  }

  lemma {:induction false} TrailersAreSkipped(trailers: seq<Data>, rest: Data)
    requires forall i | 0 <= i < |trailers| :: Clean(trailers[i]) && trailers[i] != []
    ensures SkipTrailers(TrailerWire(trailers) + rest) == Ok(rest)
  {
    var s := TrailerWire(trailers) + rest;
    if trailers == [] {
      assert s == [] + CRLF + rest;
      LineIs(s, [], rest);
    } else {
      var more := TrailerWire(trailers[1..]) + rest;
      assert s == trailers[0] + CRLF + more;
      LineIs(s, trailers[0], more);
      TrailersAreSkipped(trailers[1..], rest);
    }
  }

  lemma {:induction false} SkippedAreTrailers(s: Data) returns (trailers: seq<Data>)
    requires SkipTrailers(s).Ok?
    ensures s == TrailerWire(trailers) + SkipTrailers(s).value
    ensures forall i | 0 <= i < |trailers| :: Clean(trailers[i]) && trailers[i] != []
    decreases |s|
  {
    var (line, more) := Line(s).value;
    LineIs(s, line, more);
    if line == [] {
      trailers := [];
    } else {
      var others := SkippedAreTrailers(more);
      trailers := [line] + others;
      assert trailers[1..] == others;
    }
  }

  /** Reading one chunk off the front of the input. */
  lemma OnePiece(before: Data, p: Piece, rest: Data, limit: nat)
    requires p.Legal()
    ensures Decode(before, p.Wire() + rest, limit) ==
            if |before| + |p.data| > limit then Err(BodyTooLarge) else Decode(before + p.data, rest, limit)
  {
    var after := p.tail + CRLF + rest;
    var s := p.Wire() + rest;
    assert s == p.line + CRLF + (p.data + after);
    LineIs(s, p.line, p.data + after);
    LineIs(after, p.tail, rest);
    assert (p.data + after)[..|p.data|] == p.data;
    assert (p.data + after)[|p.data|..] == after;
  }

  /** The last chunk ends the body. */
  lemma LastPiece(before: Data, last: Data, trailers: seq<Data>, rest: Data, limit: nat)
    requires Body([], last, trailers).Legal()
    ensures Decode(before, BodyWire(Body([], last, trailers)) + rest, limit) == Ok((before, rest))
  {
    var s := BodyWire(Body([], last, trailers)) + rest;
    assert s == last + CRLF + (TrailerWire(trailers) + rest);
    LineIs(s, last, TrailerWire(trailers) + rest);
    TrailersAreSkipped(trailers, rest);
  }

  /** A piece put in front of a body. */
  lemma PieceFirst(p: Piece, b: Body)
    ensures var all := b.(pieces := [p] + b.pieces);
            && BodyWire(all) == p.Wire() + BodyWire(b)
            && Content(all.pieces) == p.data + Content(b.pieces)
            && (p.Legal() && b.Legal() ==> all.Legal())
  {
    assert ([p] + b.pieces)[1..] == b.pieces;
    var all := b.(pieces := [p] + b.pieces);
    assert all.(pieces := b.pieces) == b;
  }

  lemma PieceWire(p: Piece, rest: Data)
    ensures p.Wire() + rest == p.line + CRLF + (p.data + (p.tail + CRLF + rest))
  {
  }

  lemma CutPiece(s: Data, size: nat) returns (p: Piece, rest: Data)
    requires Line(s).Ok? && size <= |Line(s).value.1| && Line(Line(s).value.1[size..]).Ok?
    ensures s == p.Wire() + rest && |rest| < |s| && Clean(p.line) && Clean(p.tail)
    ensures p.line == Line(s).value.0 && p.data == Line(s).value.1[..size]
    ensures Line(Line(s).value.1[size..]) == Ok((p.tail, rest))
  {
    var (line, more) := Line(s).value;
    var data, after := more[..size], more[size..];
    var tail := Line(after).value.0;
    rest := Line(after).value.1;
    p := Piece(line, data, tail);
    LineIs(s, line, more);
    LineIs(after, tail, rest);
    assert more == data + after;
    PieceWire(p, rest);
  }

  /** The first piece of what Decode reads. */
  lemma FirstPiece(before: Data, s: Data, limit: nat) returns (p: Piece, rest: Data)
    requires Decode(before, s, limit).Ok? && SizeOf(Line(s).value.0) != Some(0)
    ensures p.Legal() && s == p.Wire() + rest && |rest| < |s|
    ensures Decode(before, s, limit) == Decode(before + p.data, rest, limit)
  {
    var size := SizeOf(Line(s).value.0).value;
    p, rest := CutPiece(s, size);
    LineIs(s, Line(s).value.0, Line(s).value.1);
  }

  /** Every legal body is read in full, or refused for its length alone. */
  lemma {:induction false} LegalBodiesAreRead(before: Data, b: Body, rest: Data, limit: nat)
    requires b.Legal()
    ensures Decode(before, BodyWire(b) + rest, limit) ==
            if b.pieces != [] && |before| + |Content(b.pieces)| > limit then Err(BodyTooLarge)
            else Ok((before + Content(b.pieces), rest))
    decreases |b.pieces|
  {
    if b.pieces == [] {
      LastPiece(before, b.last, b.trailers, rest, limit);
      assert before + [] == before;
    } else {
      var p, others := b.pieces[0], b.(pieces := b.pieces[1..]);
      Associates(p.Wire(), BodyWire(others), rest);
      OnePiece(before, p, BodyWire(others) + rest, limit);
      LegalBodiesAreRead(before + p.data, others, rest, limit);
      Associates(before, p.data, Content(others.pieces));
    }
  }

  /** Whatever is read was a legal body, and nothing beyond it was consumed. */
  lemma {:induction false} ReadBodiesAreLegal(before: Data, s: Data, limit: nat) returns (b: Body)
    requires Decode(before, s, limit).Ok?
    ensures b.Legal() && s == BodyWire(b) + Decode(before, s, limit).value.1
    ensures Decode(before, s, limit).value.0 == before + Content(b.pieces)
    decreases |s|
  {
    var (line, more) := Line(s).value;
    if SizeOf(line) == Some(0) {
      LineIs(s, line, more);
      var trailers := SkippedAreTrailers(more);
      b := Body([], line, trailers);
      Associates(line + CRLF, TrailerWire(trailers), SkipTrailers(more).value);
      assert before + [] == before;
    } else {
      var p, rest := FirstPiece(before, s, limit);
      var others := ReadBodiesAreLegal(before + p.data, rest, limit);
      b := others.(pieces := [p] + others.pieces);
      PieceFirst(p, others);
      Associates(p.Wire(), BodyWire(others), Decode(before, s, limit).value.1);
      Associates(before, p.data, Content(others.pieces));
    }
  }

  /** The input starts with a legal body of this content, within the limit. */
  ghost predicate Carries(s: Data, body: Data, rest: Data, limit: nat) {
    exists b: Body :: b.Legal() && s == BodyWire(b) + rest && body == Content(b.pieces) && |body| <= limit
  }

  /** The decoder accepts the chunked grammar and nothing else: any size line and any bytes
      after a chunk up to the next CRLF, and the limit is on the whole body. */
  lemma DecoderIsExact(s: Data, body: Data, rest: Data, limit: nat)
    ensures Decode([], s, limit) == Ok((body, rest)) <==> Carries(s, body, rest, limit)
  {
    if Decode([], s, limit) == Ok((body, rest)) {
      var b := ReadBodiesAreLegal([], s, limit);
      LegalBodiesAreRead([], b, rest, limit);
      assert [] + Content(b.pieces) == body;
    }
    if Carries(s, body, rest, limit) {
      var b: Body :| b.Legal() && s == BodyWire(b) + rest && body == Content(b.pieces) && |body| <= limit;
      LegalBodiesAreRead([], b, rest, limit);
      assert [] + Content(b.pieces) == body;
    }
  }

  /** What follows a body changes nothing: no byte beyond it is looked at. */
  lemma NothingBeyondIsRead(s: Data, more: Data, limit: nat)
    requires Decode([], s, limit).Ok?
    ensures var r := Decode([], s, limit).value;
            Decode([], s + more, limit) == Ok((r.0, r.1 + more))
  {
    var r := Decode([], s, limit).value;
    DecoderIsExact(s, r.0, r.1, limit);
    var b: Body :| b.Legal() && s == BodyWire(b) + r.1 && r.0 == Content(b.pieces) && |r.0| <= limit;
    Associates(BodyWire(b), r.1, more);
    DecoderIsExact(s + more, r.0, r.1 + more, limit);
  }

  // ---------------------------------------------------------------- encoding

  function Chunk(data: Data): Data { HexPrint(|data|) + CRLF + data + CRLF }

  function Encode(chunks: seq<Data>): Data {
    if chunks == [] then LAST_CHUNK else Chunk(chunks[0]) + Encode(chunks[1..])
  }

  /** How many chunks come before the first empty one. */
  function UntilEmpty(chunks: seq<Data>): (n: nat)
    ensures n <= |chunks| && (n < |chunks| ==> chunks[n] == [])
    ensures forall i | 0 <= i < n :: chunks[i] != []
  {
    if chunks == [] || chunks[0] == [] then 0 else 1 + UntilEmpty(chunks[1..])
  }

  predicate Representable(chunks: seq<Data>) { forall i | 0 <= i < |chunks| :: |chunks[i]| < USIZE_LIMIT }

  lemma LastChunkEnds(before: Data, rest: Data, limit: nat)
    ensures Decode(before, LAST_CHUNK + rest, limit) == Ok((before, rest))
  {
    SizeRoundTrip(0);
    var b := Body([], HexPrint(0), []);
    assert BodyWire(b) == LAST_CHUNK by {
      assert HexPrint(0) == [48];
      assert [48] + CRLF + CRLF == LAST_CHUNK;
    }
    LastPiece(before, HexPrint(0), [], rest, limit);
  }

  lemma OneChunk(before: Data, data: Data, rest: Data, limit: nat)
    requires 1 <= |data| < USIZE_LIMIT
    ensures Decode(before, Chunk(data) + rest, limit) ==
            if |before| + |data| > limit then Err(BodyTooLarge) else Decode(before + data, rest, limit)
  {
    SizeRoundTrip(|data|);
    var p := Piece(HexPrint(|data|), data, []);
    assert Clean([]);
    assert p.Wire() == Chunk(data);
    OnePiece(before, p, rest, limit);
  }

  /** What the encoder's output decodes to, whatever the chunks: an empty chunk ends the body,
      and what was written after it is left in the input. */
  lemma {:induction false} EncodedIsRead(before: Data, chunks: seq<Data>, rest: Data, limit: nat)
    requires Representable(chunks) && |before| <= limit
    ensures var n := UntilEmpty(chunks);
            Decode(before, Encode(chunks) + rest, limit) ==
            if |before| + |Flatten(chunks[..n])| > limit then Err(BodyTooLarge)
            else Ok((before + Flatten(chunks[..n]), LeftOver(chunks, rest)))
    decreases |chunks|
  {
    var n := UntilEmpty(chunks);
    if chunks == [] {
      LastChunkEnds(before, rest, limit);
      assert before + Flatten(chunks[..n]) == before;
    } else if chunks[0] == [] {
      assert Chunk([]) == LAST_CHUNK by {
        assert HexPrint(0) == [48];
      }
      Associates(LAST_CHUNK, Encode(chunks[1..]), rest);
      LastChunkEnds(before, Encode(chunks[1..]) + rest, limit);
      assert before + Flatten(chunks[..n]) == before;
    } else {
      var data, others := chunks[0], chunks[1..];
      Associates(Chunk(data), Encode(others), rest);
      OneChunk(before, data, Encode(others) + rest, limit);
      if |before + data| <= limit {
        EncodedIsRead(before + data, others, rest, limit);
      }
      FirstChunk(before, chunks, rest);
    }
  }

  /** What the first chunk adds to the body, and nothing to the rest. */
  lemma FirstChunk(before: Data, chunks: seq<Data>, rest: Data)
    requires chunks != [] && chunks[0] != []
    ensures var n := UntilEmpty(chunks);
            && n > 0 && UntilEmpty(chunks[1..]) == n - 1
            && Flatten(chunks[..n]) == chunks[0] + Flatten(chunks[1..][..n - 1])
            && before + Flatten(chunks[..n]) == before + chunks[0] + Flatten(chunks[1..][..n - 1])
            && LeftOver(chunks, rest) == LeftOver(chunks[1..], rest)
  {
    var n, others := UntilEmpty(chunks), chunks[1..];
    assert chunks[..n][1..] == others[..n - 1];
    Associates(before, chunks[0], Flatten(others[..n - 1]));
    assert n < |chunks| ==> chunks[n + 1..] == others[n..];
  }

  function LeftOver(chunks: seq<Data>, rest: Data): Data {
    var n := UntilEmpty(chunks);
    if n < |chunks| then Encode(chunks[n + 1..]) + rest else rest
  }

  /** The round trip is exact precisely when no chunk is empty and the body fits the limit. */
  lemma ChunkedRoundTrip(chunks: seq<Data>, rest: Data, limit: nat)
    requires Representable(chunks)
    ensures Decode([], Encode(chunks) + rest, limit) == Ok((Flatten(chunks), rest))
       <==> (forall i | 0 <= i < |chunks| :: chunks[i] != []) && |Flatten(chunks)| <= limit
  {
    var n := UntilEmpty(chunks);
    EncodedIsRead([], chunks, rest, limit);
    assert [] + Flatten(chunks[..n]) == Flatten(chunks[..n]);
    if n == |chunks| {
      assert chunks[..n] == chunks;
    } else {
      assert |LeftOver(chunks, rest)| > |rest|;
    }
  }

  // ------------------------------------------------------------ the server's I/O

  class Writer {
    var output: Data

    constructor ()
      ensures output == []
    {
      output := [];
    }

    method WriteChunk(data: Data)
      modifies this
      ensures output == old(output) + Chunk(data)
    {
      output := output + (HexPrint(|data|) + CRLF);
      output := output + data;
      output := output + CRLF;
    }
  }

  /** A connection. */
  class Reader {
    var input: Data

    constructor (bytes: Data)
      ensures input == bytes
    {
      input := bytes;
    }

    method ReadExact(n: nat) returns (r: Result<Data, ReadError>)
      modifies this
      ensures r == if |old(input)| < n then Err(Closed) else Ok(old(input)[..n])
      ensures input == if r.Ok? then old(input)[n..] else []
    {
      if |input| < n {
        input := [];
        return Err(Closed);
      }
      r, input := Ok(input[..n]), input[n..];
    }

    method ReadLine() returns (r: Result<Data, ReadError>)
      modifies this
      ensures ReadsLine(old(input), r, input)
    {
      ghost var all := input;
      var line: Data := [];
      while true
        invariant all == line + input && |line| <= LONGEST_LINE + 1 && NoCrlf(line)
        decreases |input|
      {
        if input == [] {
          assert all == line;
          NeverEnds(line);
          return Err(Closed);
        }
        var c := input[0];
        OneMoreByte(line, c, input[1..]);
        assert all == line + [c] + input[1..];
        line, input := line + [c], input[1..];
        var n := |line|;
        if n >= 2 && line[n - 2] == 13 && line[n - 1] == 10 {
          return Ok(line[..n - 2]);
        }
        if n > LONGEST_LINE + 1 {
          return Err(LineTooLong);
        }
      }
    }

    method ReadChunkSize() returns (r: Result<nat, ReadError>)
      modifies this
      ensures var line := Line(old(input));
              && input == LineRest(old(input))
              && r == if line.Err? then Err(line.error) else if SizeOf(line.value.0).None? then Err(BadSize)
                      else Ok(SizeOf(line.value.0).value)
    {
      var line := ReadLine();
      if line.Err? {
        return Err(line.error);
      }
      var size := SizeOf(line.value);
      r := if size.None? then Err(BadSize) else Ok(size.value);
    }

    method ReadTrailers() returns (error: Option<ReadError>)
      modifies this
      ensures var after := SkipTrailers(old(input));
              && input == TrailersRest(old(input))
              && error == if after.Err? then Some(after.error) else None
    {
      while true
        invariant SkipTrailers(old(input)) == SkipTrailers(input)
        invariant TrailersRest(old(input)) == TrailersRest(input)
        decreases |input|
      {
        var line := ReadLine();
        if line.Err? {
          return Some(line.error);
        }
        if line.value == [] {
          return None;
        }
      }
    }

    method ReadChunked(limit: nat) returns (r: Result<Data, ReadError>)
      modifies this
      ensures var decoded := Decode([], old(input), limit);
              && input == DecodeRest([], old(input), limit)
              && r == if decoded.Err? then Err(decoded.error) else Ok(decoded.value.0)
    {
      var body: Data := [];
      while true
        invariant Decode([], old(input), limit) == Decode(body, input, limit)
        invariant DecodeRest([], old(input), limit) == DecodeRest(body, input, limit)
        decreases |input|
      {
        var size := ReadChunkSize();
        if size.Err? {
          return Err(size.error);
        }
        if size.value == 0 {
          var error := ReadTrailers();
          return if error.Some? then Err(error.value) else Ok(body);
        }
        if |body| + size.value > limit {
          return Err(BodyTooLarge);
        }
        var chunk := ReadExact(size.value);
        if chunk.Err? {
          return Err(chunk.error);
        }
        body := body + chunk.value;
        var line := ReadLine();
        if line.Err? {
          return Err(line.error);
        }
      }
    }
  }
}
