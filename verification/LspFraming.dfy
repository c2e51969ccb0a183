/** The language-server wire format: `Content-Length` frames over one byte stream. */
module LspFraming {
  import opened Wrappers

  /** A byte is shown as the character with its code. */
  type Bytes = string

  /** The standard library's text primitives, on the bytes of a line or a header value. */
  datatype TextRules = TextRules(utf8: Bytes -> bool, trim: Bytes -> Bytes)

  datatype Read = Body(body: Bytes, rest: Bytes) | EndOfStream | Malformed

  datatype Header = Complete(length: Option<nat>, rest: Bytes) | Ended | Broken

  const USIZE_MAX: nat := 0xFFFF_FFFF_FFFF_FFFF
  const CONTENT_LENGTH: Bytes := "Content-Length"
  const EOL: Bytes := "\r\n"

  predicate IsDigit(b: char) {
    '0' <= b <= '9'
  }

  ghost predicate AllDigits(s: Bytes) {
    forall i | 0 <= i < |s| :: IsDigit(s[i])
  }

  // What the text primitives do on the lines a writer produces.
  ghost predicate Faithful(rules: TextRules) {
    && (forall s: Bytes | (forall i | 0 <= i < |s| :: s[i] as int < 128) :: rules.utf8(s))
    && (forall s: Bytes | AllDigits(s) && s != [] :: rules.trim([' '] + s) == s)
  }

  // ---- numbers ----

  function Decimal(n: nat): Bytes {
    if n < 10 then [('0' as int + n) as char] else Decimal(n / 10) + [('0' as int + n % 10) as char]
  }

  function Numeral(s: Bytes): Option<nat> {
    if s == [] then Some(0)
    else
      var high := Numeral(s[..|s| - 1]);
      var last := s[|s| - 1];
      if high.None? || !IsDigit(last) then None
      else Some(high.value * 10 + (last as int - '0' as int))
  }

  /** `str::parse::<usize>`: an optional plus sign, then at least one digit, within the width. */
  function ParseUsize(s: Bytes): Option<nat> {
    var digits := if |s| > 1 && s[0] == '+' then s[1..] else s;
    var n := Numeral(digits);
    if digits == [] || n.None? || n.value > USIZE_MAX then None else n
  }

  lemma {:induction false} DecimalReadsBack(n: nat)
    ensures AllDigits(Decimal(n)) && Decimal(n) != [] && Numeral(Decimal(n)) == Some(n)
  {
    if n >= 10 {
      DecimalReadsBack(n / 10);
      assert Decimal(n)[..|Decimal(n)| - 1] == Decimal(n / 10);
    }
  }

  lemma {:induction false} NumeralIff(s: Bytes)
    ensures Numeral(s).Some? <==> forall b | b in s :: b in "0123456789"
  {
    if s != [] {
      var init, last := s[..|s| - 1], s[|s| - 1];
      NumeralIff(init);
      DigitIff(last);
      assert s == init + [last];
    }
  }

  lemma DigitIff(b: char)
    ensures IsDigit(b) <==> b in "0123456789"
  {
    var digits := "0123456789";
    assert forall i | 0 <= i < 10 :: digits[i] as int == '0' as int + i;
    if IsDigit(b) {
      assert digits[b as int - '0' as int] == b;
    }
  }

  lemma {:induction false} Zeros(zeros: Bytes)
    requires forall b | b in zeros :: b == '0'
    ensures Numeral(zeros) == Some(0)
  {
    if zeros != [] {
      var init, last := zeros[..|zeros| - 1], zeros[|zeros| - 1];
      assert last in zeros && forall b | b in init :: b in zeros;
      Zeros(init);
    }
  }

  lemma {:induction false} ZerosDoNotCount(zeros: Bytes, s: Bytes)
    requires forall b | b in zeros :: b == '0'
    ensures Numeral(zeros + s) == Numeral(s)
    decreases |s|
  {
    if s == [] {
      Zeros(zeros);
      assert zeros + s == zeros;
    } else {
      var init := s[..|s| - 1];
      ZerosDoNotCount(zeros, init);
      assert (zeros + s)[..|zeros + s| - 1] == zeros + init && (zeros + s)[|zeros + s| - 1] == s[|s| - 1];
    }
  }

  /** A length parses exactly when it is decimal digits, perhaps behind a plus sign, of a number that fits
      64 bits; and a number parses back from its digits behind any sign and zeros. */
  lemma ParsesIff(s: Bytes)
    ensures
      var digits := if |s| > 1 && s[0] == '+' then s[1..] else s;
      ParseUsize(s).Some? <==>
        && digits != [] && (forall b | b in digits :: b in "0123456789")
        && Numeral(digits).Some? && Numeral(digits).value <= 18446744073709551615
  {
    NumeralIff(if |s| > 1 && s[0] == '+' then s[1..] else s);
    hide Numeral;
  }

  lemma ParsesBack(n: nat, plus: bool, zeros: Bytes)
    requires forall b | b in zeros :: b == '0'
    ensures
      var digits := zeros + Decimal(n);
      ParseUsize(if plus then ['+'] + digits else digits) == if n <= 18446744073709551615 then Some(n) else None
  {
    DecimalReadsBack(n);
    ZerosDoNotCount(zeros, Decimal(n));
    NoPlus(n, zeros);
    hide Numeral, Decimal, ParseUsize;
    PlusOff(zeros + Decimal(n));
  }

  lemma NoPlus(n: nat, zeros: Bytes)
    requires forall b | b in zeros :: b == '0'
    ensures zeros + Decimal(n) != [] && (zeros + Decimal(n))[0] != '+'
  {
    DecimalReadsBack(n);
    hide Decimal;
    if zeros == [] {
      assert IsDigit(Decimal(n)[0]);
    } else {
      assert zeros[0] in zeros;
    }
  }

  lemma PlusOff(digits: Bytes)
    requires digits != [] && digits[0] != '+'
    ensures ParseUsize(['+'] + digits) == ParseUsize(digits)
    ensures ParseUsize(digits) == if Numeral(digits).None? || Numeral(digits).value > USIZE_MAX then None
                                  else Numeral(digits)
  {
    hide Numeral;
    assert (['+'] + digits)[1..] == digits;
  }

  // ---- writing ----

  function LengthLine(n: nat): Bytes {
    CONTENT_LENGTH + [':', ' '] + Decimal(n) + EOL
  }

  /** `encode_message` on the serialised payload. */
  function Frame(body: Bytes): Bytes {
    LengthLine(|body|) + EOL + body
  }

  function Frames(bodies: seq<Bytes>): Bytes {
    if bodies == [] then [] else Frame(bodies[0]) + Frames(bodies[1..])
  }

  // ---- reading ----

  /** How many bytes `read_line` takes: through the first newline, or all there are. */
  function LineLength(input: Bytes): (n: nat)
    ensures n <= |input| && (input != [] ==> n > 0)
    ensures forall i | 0 <= i < n - 1 :: input[i] != '\n'
    ensures n == |input| || (n > 0 && input[n - 1] == '\n')
  {
    if input == [] then 0 else if input[0] == '\n' then 1 else 1 + LineLength(input[1..])
  }

  function TrimEol(line: Bytes): (r: Bytes)
    ensures r <= line && (r == [] || r[|r| - 1] !in {'\r', '\n'})
    ensures forall i | |r| <= i < |line| :: line[i] in {'\r', '\n'}
  {
    if line != [] && line[|line| - 1] in {'\r', '\n'} then TrimEol(line[..|line| - 1]) else line
  }

  function ColonAt(line: Bytes): (k: nat)
    ensures k <= |line| && ':' !in line[..k] && (k < |line| ==> line[k] == ':')
  {
    if line == [] || line[0] == ':' then 0 else 1 + ColonAt(line[1..])
  }

  function Lower(b: char): char {
    if 'A' <= b <= 'Z' then (b as int + 32) as char else b
  }

  predicate SameIgnoringCase(a: Bytes, b: Bytes) {
    |a| == |b| && forall i | 0 <= i < |a| :: Lower(a[i]) == Lower(b[i])
  }

  /** One header line: the length known so far becomes the answer's, or the line is an error. */
  function HeaderLine(rules: TextRules, trimmed: Bytes, length: Option<nat>): (r: Option<Option<nat>>) {
    var k := ColonAt(trimmed);
    if k == |trimmed| then None
    else if !SameIgnoringCase(trimmed[..k], CONTENT_LENGTH) then Some(length)
    else
      var n := ParseUsize(rules.trim(trimmed[k + 1..]));
      if n.None? then None else Some(n)
  }

  function Headers(rules: TextRules, input: Bytes, length: Option<nat>): Header
    decreases |input|
  {
    if input == [] then Ended
    else
      var line, rest := input[..LineLength(input)], input[LineLength(input)..];
      if !rules.utf8(line) then Broken
      else if TrimEol(line) == [] then Complete(length, rest)
      else
        var known := HeaderLine(rules, TrimEol(line), length);
        if known.None? then Broken else Headers(rules, rest, known.value)
  }

  function ReadMessage(rules: TextRules, input: Bytes): Read {
    match Headers(rules, input, None)
    case Ended => EndOfStream
    case Broken => Malformed
    case Complete(None, _) => Malformed
    case Complete(Some(n), rest) => if n > |rest| then Malformed else Body(rest[..n], rest[n..])
  }

  /** `read_message` as the source runs it: a loop over header lines, then the body. */
  method ReadMessageLoop(rules: TextRules, input: Bytes) returns (r: Read)
    ensures r == ReadMessage(rules, input)
  {
    var rest := input;
    var length: Option<nat> := None;
    while true
      invariant Headers(rules, rest, length) == Headers(rules, input, None)
      decreases |rest|
    {
      if rest == [] {
        return EndOfStream;
      }
      var n := LineLength(rest);
      var line := rest[..n];
      if !rules.utf8(line) {
        return Malformed;
      }
      rest := rest[n..];
      var trimmed := TrimEol(line);
      if trimmed == [] {
        break;
      }
      var known := HeaderLine(rules, trimmed, length);
      if known.None? {
        return Malformed;
      }
      length := known.value;
    }
    if length.None? || length.value > |rest| {
      return Malformed;
    }
    r := Body(rest[..length.value], rest[length.value..]);
  }

  /** The reader thread's loop: every body it hands on, and whether it ended without an error. */
  function ReadAll(rules: TextRules, input: Bytes): (seq<Bytes>, bool)
    decreases |input|
  {
    ReadShortens(rules, input);
    match ReadMessage(rules, input)
    case EndOfStream => ([], true)
    case Malformed => ([], false)
    case Body(body, rest) =>
      var tail := ReadAll(rules, rest);
      ([body] + tail.0, tail.1)
  }

  lemma {:induction false} HeadersShorten(rules: TextRules, input: Bytes, length: Option<nat>)
    ensures Headers(rules, input, length).Complete? ==> |Headers(rules, input, length).rest| < |input|
    decreases |input|
  {
    if input != [] {
      var line := input[..LineLength(input)];
      if rules.utf8(line) && TrimEol(line) != [] {
        var known := HeaderLine(rules, TrimEol(line), length);
        if known.Some? {
          HeadersShorten(rules, input[LineLength(input)..], known.value);
        }
      }
    }
  }

  lemma ReadShortens(rules: TextRules, input: Bytes)
    ensures ReadMessage(rules, input).Body? ==> |ReadMessage(rules, input).rest| < |input|
  {
    HeadersShorten(rules, input, None);
  }

  // ---- one frame ----

  lemma {:induction false} LineOf(line: Bytes, tail: Bytes)
    requires '\n' !in line
    ensures LineLength(line) == |line|
    ensures LineLength(line + ['\n'] + tail) == |line| + 1
  {
    var input := line + ['\n'] + tail;
    if line != [] {
      LineOf(line[1..], tail);
      assert input[1..] == line[1..] + ['\n'] + tail;
    }
  }

  lemma {:induction false} ColonIn(name: Bytes, tail: Bytes)
    requires ':' !in name
    ensures ColonAt(name + [':'] + tail) == |name|
  {
    var line := name + [':'] + tail;
    if name != [] {
      ColonIn(name[1..], tail);
      assert line[1..] == name[1..] + [':'] + tail;
    }
  }

  lemma TrimmedLine(text: Bytes)
    requires text != [] && text[|text| - 1] !in {'\r', '\n'}
    ensures TrimEol(text + EOL) == text
  {
    assert TrimEol(text) == text;
    assert (text + ['\r'])[..|text|] == text;
    assert TrimEol(text + ['\r']) == text;
    assert text + EOL == text + ['\r'] + ['\n'];
    assert (text + EOL)[..|text| + 1] == text + ['\r'];
  }

  /** The text of a length line without its line end. */
  function LengthText(n: nat): Bytes {
    CONTENT_LENGTH + [':', ' '] + Decimal(n)
  }

  lemma LengthTextTrimmed(n: nat)
    ensures LengthText(n) != [] && TrimEol(LengthLine(n)) == LengthText(n)
  {
    DecimalReadsBack(n);
    hide TrimEol, Decimal;
    assert IsDigit(LengthText(n)[|LengthText(n)| - 1]);
    TrimmedLine(LengthText(n));
  }

  lemma LengthTextSplits(n: nat)
    ensures ColonAt(LengthText(n)) == |CONTENT_LENGTH| < |LengthText(n)|
    ensures LengthText(n)[..|CONTENT_LENGTH|] == CONTENT_LENGTH
    ensures LengthText(n)[|CONTENT_LENGTH| + 1..] == [' '] + Decimal(n)
  {
    hide ColonAt, Decimal;
    assert LengthText(n) == CONTENT_LENGTH + [':'] + ([' '] + Decimal(n));
    ColonIn(CONTENT_LENGTH, [' '] + Decimal(n));
  }

  lemma DecimalParses(rules: TextRules, n: nat)
    requires Faithful(rules) && n <= USIZE_MAX
    ensures ParseUsize(rules.trim([' '] + Decimal(n))) == Some(n)
  {
    DecimalReadsBack(n);
    hide Decimal, Numeral;
    assert IsDigit(Decimal(n)[0]);
  }

  lemma LengthTextReads(rules: TextRules, n: nat, length: Option<nat>)
    requires Faithful(rules) && n <= USIZE_MAX
    ensures HeaderLine(rules, LengthText(n), length) == Some(Some(n))
  {
    LengthTextSplits(n);
    DecimalParses(rules, n);
    hide Faithful, LengthText, Decimal, ColonAt, ParseUsize;
  }

  lemma LengthLineIsText(rules: TextRules, n: nat)
    requires Faithful(rules)
    ensures rules.utf8(LengthLine(n))
  {
    LengthLineIsOneLine(n, []);
    hide LengthLine;
  }

  /** After its length line, a reader knows the length and is at what follows. */
  lemma AfterLengthLine(rules: TextRules, n: nat, tail: Bytes)
    requires Faithful(rules) && n <= USIZE_MAX
    ensures Headers(rules, LengthLine(n) + tail, None) == Headers(rules, tail, Some(n))
  {
    LengthLineIsOneLine(n, tail);
    LengthLineIsText(rules, n);
    LengthTextTrimmed(n);
    LengthTextReads(rules, n, None);
    hide Faithful, LengthLine, LengthText, LineLength, TrimEol, HeaderLine;
    var input := LengthLine(n) + tail;
    assert input[..|LengthLine(n)|] == LengthLine(n) && input[|LengthLine(n)|..] == tail;
    HeadersStep(rules, input, LengthLine(n), tail, None, Some(n));
  }

  lemma HeadersStep(rules: TextRules, input: Bytes, line: Bytes, rest: Bytes, length: Option<nat>, known: Option<nat>)
    requires input != [] && LineLength(input) == |line| && input == line + rest && rules.utf8(line)
    requires TrimEol(line) != [] && HeaderLine(rules, TrimEol(line), length) == Some(known)
    ensures Headers(rules, input, length) == Headers(rules, rest, known)
  {
    hide TrimEol, HeaderLine, LineLength;
    assert input[..|line|] == line && input[|line|..] == rest;
  }

  lemma BlankLine(rules: TextRules)
    requires Faithful(rules)
    ensures TrimEol(['\r']) == [] && TrimEol(EOL) == [] && rules.utf8(EOL) && rules.utf8(['\r'])
  {
    assert EOL[..1] == ['\r'] && ['\r'][..0] == [];
  }

  lemma BlankLineEnds(rules: TextRules, n: nat, tail: Bytes)
    requires Faithful(rules)
    ensures Headers(rules, EOL + tail, Some(n)) == Complete(Some(n), tail)
    ensures Headers(rules, ['\r'], Some(n)) == Complete(Some(n), [])
  {
    hide Headers, TrimEol, LineLength, Faithful;
    BlankLine(rules);
    LineOf(['\r'], tail);
    assert EOL + tail == ['\r'] + ['\n'] + tail;
    BlankStep(rules, EOL + tail, EOL, tail, Some(n));
    BlankStep(rules, ['\r'], ['\r'], [], Some(n));
  }

  lemma BlankStep(rules: TextRules, input: Bytes, line: Bytes, rest: Bytes, length: Option<nat>)
    requires line != [] && LineLength(input) == |line| && input == line + rest
    requires rules.utf8(line) && TrimEol(line) == []
    ensures Headers(rules, input, length) == Header.Complete(length, rest)
  {
    hide TrimEol, LineLength;
    assert input[..|line|] == line && input[|line|..] == rest;
  }

  lemma LengthLineIsOneLine(n: nat, tail: Bytes)
    ensures LineLength(LengthLine(n) + tail) == |LengthLine(n)|
    ensures forall i | 0 <= i < |LengthLine(n)| :: LengthLine(n)[i] as int < 128
    ensures forall i | 0 <= i < |LengthLine(n)| - 1 :: LengthLine(n)[i] != '\n'
  {
    DecimalReadsBack(n);
    var text := CONTENT_LENGTH + [':', ' '] + Decimal(n) + ['\r'];
    assert LengthLine(n) == text + ['\n'];
    LineOf(text, tail);
    assert LengthLine(n) + tail == text + ['\n'] + tail;
  }

  lemma HeadersOfFrame(rules: TextRules, n: nat, tail: Bytes)
    requires Faithful(rules) && n <= USIZE_MAX
    ensures Headers(rules, LengthLine(n) + EOL + tail, None) == Complete(Some(n), tail)
  {
    AfterLengthLine(rules, n, EOL + tail);
    BlankLineEnds(rules, n, tail);
    assert LengthLine(n) + EOL + tail == LengthLine(n) + (EOL + tail);
  }

  lemma FrameThen(body: Bytes, tail: Bytes)
    ensures Frame(body) + tail == LengthLine(|body|) + EOL + (body + tail)
  {
    hide LengthLine;
  }

  lemma FrameReadsBack(rules: TextRules, body: Bytes, tail: Bytes)
    requires Faithful(rules) && |body| <= USIZE_MAX
    ensures ReadMessage(rules, Frame(body) + tail) == Body(body, tail)
  {
    hide Headers, LengthLine, Faithful;
    HeadersOfFrame(rules, |body|, body + tail);
    FrameThen(body, tail);
    assert (body + tail)[..|body|] == body && (body + tail)[|body|..] == tail;
    hide Frame;
  }

  // ---- any header ----

  /** What a header line says. */
  datatype Field = Field(name: Bytes, value: Bytes)

  function FieldText(field: Field): Bytes {
    field.name + [':'] + field.value
  }

  /** A field as a peer may write it: on one line, with nothing at its end that belongs to the line end. */
  ghost predicate OneLine(rules: TextRules, field: Field) {
    && ':' !in field.name && '\n' !in field.name && '\n' !in field.value
    && (field.value != [] ==> field.value[|field.value| - 1] != '\r')
    && rules.utf8(FieldText(field) + EOL)
  }

  /** The name is `content-length`, each letter in either case. */
  predicate NamesLength(field: Field) {
    |field.name| == 14
    && forall i | 0 <= i < 14 :: field.name[i] == "content-length"[i] || field.name[i] == "CONTENT-LENGTH"[i]
  }

  function Block(fields: seq<Field>): Bytes {
    if fields == [] then [] else FieldText(fields[0]) + EOL + Block(fields[1..])
  }

  lemma NameCompared(field: Field)
    ensures SameIgnoringCase(field.name, CONTENT_LENGTH) <==> NamesLength(field)
  {
    LetterByLetter();
    var lower := "content-length";
    var upper := "CONTENT-LENGTH";
    forall i | 0 <= i < 14 && i < |field.name|
      ensures Lower(field.name[i]) == Lower(CONTENT_LENGTH[i]) <==>
              field.name[i] == lower[i] || field.name[i] == upper[i]
    {
      LowerTwo(field.name[i], lower[i], upper[i]);
    }
  }

  lemma LetterByLetter()
    ensures |CONTENT_LENGTH| == |"content-length"| == |"CONTENT-LENGTH"| == 14
    ensures forall i | 0 <= i < 14 ::
              && Lower(CONTENT_LENGTH[i]) == "content-length"[i]
              && (if "content-length"[i] == '-' then "CONTENT-LENGTH"[i] == '-'
                  else 'a' <= "content-length"[i] <= 'z' && "content-length"[i] == Lower("CONTENT-LENGTH"[i])
                       && 'A' <= "CONTENT-LENGTH"[i] <= 'Z')
  {
  }

  lemma LowerTwo(b: char, lower: char, upper: char)
    requires if lower == '-' then upper == '-' else 'A' <= upper <= 'Z' && 'a' <= lower <= 'z' && lower == Lower(upper)
    ensures Lower(b) == lower <==> b == lower || b == upper
  {
  }

  lemma FieldLine(rules: TextRules, field: Field, length: Option<nat>)
    requires OneLine(rules, field)
    ensures FieldText(field) != [] && FieldText(field)[|FieldText(field)| - 1] !in {'\r', '\n'}
    ensures HeaderLine(rules, FieldText(field), length) ==
            (if !NamesLength(field) then Some(length)
             else if ParseUsize(rules.trim(field.value)).None? then None
             else Some(ParseUsize(rules.trim(field.value))))
  {
    ColonIn(field.name, field.value);
    NameCompared(field);
    hide ParseUsize, SameIgnoringCase, NamesLength, ColonAt;
    var text := FieldText(field);
    assert text[..|field.name|] == field.name && text[|field.name| + 1..] == field.value;
  }

  lemma LineStep(rules: TextRules, text: Bytes, tail: Bytes, length: Option<nat>)
    requires text != [] && '\n' !in text && text[|text| - 1] != '\r' && rules.utf8(text + EOL)
    ensures
      var known := HeaderLine(rules, text, length);
      Headers(rules, text + EOL + tail, length) == if known.None? then Broken else Headers(rules, tail, known.value)
  {
    TrimmedLine(text);
    LineOf(text + ['\r'], tail);
    hide TrimEol, HeaderLine, LineLength;
    var line := text + EOL;
    assert text + ['\r'] + ['\n'] + tail == line + tail;
    assert (line + tail)[..|line|] == line && (line + tail)[|line|..] == tail;
  }

  function LengthIn(rules: TextRules, field: Field): Option<nat> {
    ParseUsize(rules.trim(field.value))
  }

  /** Some length in the header does not parse. */
  ghost predicate BadLength(rules: TextRules, fields: seq<Field>) {
    exists i :: 0 <= i < |fields| && NamesLength(fields[i]) && LengthIn(rules, fields[i]).None?
  }

  ghost predicate NoLength(fields: seq<Field>) {
    forall i | 0 <= i < |fields| :: !NamesLength(fields[i])
  }

  /** Any header: a length that does not parse breaks it, any other field leaves it as it is, and of
      several lengths the last one counts. */
  lemma {:induction false} FieldsRead(rules: TextRules, fields: seq<Field>, tail: Bytes, length: Option<nat>)
    requires forall i | 0 <= i < |fields| :: OneLine(rules, fields[i])
    ensures
      var r := Headers(rules, Block(fields) + tail, length);
      if BadLength(rules, fields) then r == Broken
      else
        && (NoLength(fields) ==> r == Headers(rules, tail, length))
        && (forall i | 0 <= i < |fields| && NamesLength(fields[i]) && NoLength(fields[i + 1..]) ::
              r == Headers(rules, tail, LengthIn(rules, fields[i])))
  {
    hide HeaderLine, NamesLength, Headers, OneLine, LengthIn, FieldText, NoLength, BadLength;
    if fields == [] {
      assert [] + tail == tail;
      NoFields(rules);
    } else {
      var rest := fields[1..];
      FirstField(rules, fields, tail, length);
      FirstOf(rules, fields);
      if !NamesLength(fields[0]) {
        FieldsRead(rules, rest, tail, length);
      } else if LengthIn(rules, fields[0]).Some? {
        FieldsRead(rules, rest, tail, LengthIn(rules, fields[0]));
      }
      forall i | 0 < i < |fields| ensures fields[i + 1..] == rest[i - 1 + 1..] && rest[i - 1] == fields[i] {
      }
    }
  }

  lemma NoFields(rules: TextRules)
    ensures NoLength([]) && !BadLength(rules, [])
  {
  }

  lemma FirstOf(rules: TextRules, fields: seq<Field>)
    requires fields != []
    ensures NoLength(fields) <==> !NamesLength(fields[0]) && NoLength(fields[1..])
    ensures BadLength(rules, fields) <==>
            (NamesLength(fields[0]) && LengthIn(rules, fields[0]).None?) || BadLength(rules, fields[1..])
  {
    hide NamesLength, LengthIn;
    var rest := fields[1..];
    assert forall i | 0 <= i < |rest| :: rest[i] == fields[i + 1];
    assert forall i | 0 < i < |fields| :: fields[i] == rest[i - 1];
  }

  lemma FirstField(rules: TextRules, fields: seq<Field>, tail: Bytes, length: Option<nat>)
    requires fields != [] && OneLine(rules, fields[0])
    ensures
      var r := Headers(rules, Block(fields) + tail, length);
      if !NamesLength(fields[0]) then r == Headers(rules, Block(fields[1..]) + tail, length)
      else if LengthIn(rules, fields[0]).None? then r == Broken
      else r == Headers(rules, Block(fields[1..]) + tail, LengthIn(rules, fields[0]))
  {
    FieldLine(rules, fields[0], length);
    hide HeaderLine, NamesLength, Headers, ParseUsize;
    assert '\n' !in FieldText(fields[0]);
    hide FieldText;
    LineStep(rules, FieldText(fields[0]), Block(fields[1..]) + tail, length);
    BlockStep(fields, tail);
    hide OneLine, Block;
  }

  lemma BlockStep(fields: seq<Field>, tail: Bytes)
    requires fields != []
    ensures Block(fields) + tail == FieldText(fields[0]) + EOL + (Block(fields[1..]) + tail)
  {
    hide FieldText;
  }

  /** A whole message under any header, case for case: without a length, with a bad one, or with more
      promised than is there it is an error; otherwise the last length given cuts the body. */
  lemma AnyHeaderReads(rules: TextRules, fields: seq<Field>, tail: Bytes)
    requires Faithful(rules) && forall i | 0 <= i < |fields| :: OneLine(rules, fields[i])
    ensures
      var r := ReadMessage(rules, Block(fields) + (EOL + tail));
      if BadLength(rules, fields) || NoLength(fields) then r == Malformed
      else
        forall last | 0 <= last < |fields| && NamesLength(fields[last]) && NoLength(fields[last + 1..]) ::
          var n := LengthIn(rules, fields[last]);
          n.Some? && r == if n.value > |tail| then Malformed else Body(tail[..n.value], tail[n.value..])
  {
    FieldsRead(rules, fields, EOL + tail, None);
    BlankLineAfter(rules, tail, None);
    forall last | 0 <= last < |fields| && NamesLength(fields[last]) && LengthIn(rules, fields[last]).Some?
      ensures Headers(rules, EOL + tail, LengthIn(rules, fields[last]))
           == Header.Complete(LengthIn(rules, fields[last]), tail)
    {
      BlankLineAfter(rules, tail, LengthIn(rules, fields[last]));
    }
    hide LengthIn, NamesLength, NoLength, Headers, OneLine, Faithful, Block;
  }

  /** A stream that ends within the header is at its end, unless a length before did not parse. */
  lemma HeaderThenNothing(rules: TextRules, fields: seq<Field>)
    requires forall i | 0 <= i < |fields| :: OneLine(rules, fields[i])
    ensures ReadMessage(rules, Block(fields)) == if BadLength(rules, fields) then Malformed else EndOfStream
  {
    FieldsRead(rules, fields, [], None);
    assert Block(fields) + [] == Block(fields);
    assert forall length: Option<nat> :: Headers(rules, [], length) == Ended;
    if !BadLength(rules, fields) && !NoLength(fields) {
      var last := LastLength(fields);
    }
    hide LengthIn, NamesLength, NoLength, Headers, OneLine, Block;
  }

  lemma {:induction false} LastLength(fields: seq<Field>) returns (last: nat)
    requires !NoLength(fields)
    ensures last < |fields| && NamesLength(fields[last]) && NoLength(fields[last + 1..])
  {
    hide NamesLength;
    var n := |fields| - 1;
    if NamesLength(fields[n]) {
      last := n;
    } else {
      last := LastLength(fields[..n]);
      var after := fields[..n][last + 1..];
      assert forall i | last < i < n :: fields[i] == after[i - last - 1];
    }
  }

  lemma BlankLineAfter(rules: TextRules, tail: Bytes, length: Option<nat>)
    requires Faithful(rules)
    ensures Headers(rules, EOL + tail, length) == Header.Complete(length, tail)
  {
    hide Headers, TrimEol, LineLength, Faithful;
    BlankLine(rules);
    LineOf(['\r'], tail);
    assert EOL + tail == ['\r'] + ['\n'] + tail;
    BlankStep(rules, EOL + tail, EOL, tail, length);
  }

  /** A header line without a colon is an error, whatever came before it. */
  lemma NoColonIsMalformed(rules: TextRules, fields: seq<Field>, text: Bytes, tail: Bytes)
    requires forall i | 0 <= i < |fields| :: OneLine(rules, fields[i])
    requires text != [] && '\n' !in text && ':' !in text && text[|text| - 1] != '\r' && rules.utf8(text + EOL)
    ensures ReadMessage(rules, Block(fields) + (text + EOL + tail)) == Malformed
  {
    assert HeaderLine(rules, text, None) == None;
    BrokenAfter(rules, fields, text + EOL + tail, None) by {
      forall length: Option<nat> ensures Headers(rules, text + EOL + tail, length) == Broken {
        assert HeaderLine(rules, text, length) == None;
        LineStep(rules, text, tail, length);
      }
    }
  }

  /** So is one that is not UTF-8 text. */
  lemma NotTextIsMalformed(rules: TextRules, fields: seq<Field>, line: Bytes, tail: Bytes)
    requires forall i | 0 <= i < |fields| :: OneLine(rules, fields[i])
    requires '\n' !in line && !rules.utf8(line + ['\n'])
    ensures ReadMessage(rules, Block(fields) + (line + ['\n'] + tail)) == Malformed
  {
    LineOf(line, tail);
    assert (line + ['\n'] + tail)[..|line| + 1] == line + ['\n'];
    BrokenAfter(rules, fields, line + ['\n'] + tail, None);
  }

  lemma {:induction false} BrokenAfter(rules: TextRules, fields: seq<Field>, tail: Bytes, length: Option<nat>)
    requires forall i | 0 <= i < |fields| :: OneLine(rules, fields[i])
    requires forall known: Option<nat> :: Headers(rules, tail, known) == Broken
    ensures Headers(rules, Block(fields) + tail, length) == Broken
  {
    hide NamesLength, Headers, OneLine, LengthIn, FieldText;
    if fields == [] {
      assert [] + tail == tail;
    } else {
      FirstField(rules, fields, tail, length);
      BrokenAfter(rules, fields[1..], tail, length);
      BrokenAfter(rules, fields[1..], tail, LengthIn(rules, fields[0]));
    }
  }

  // ---- a whole stream ----

  lemma ReadAllStep(rules: TextRules, input: Bytes, body: Bytes, rest: Bytes)
    requires ReadMessage(rules, input) == Body(body, rest)
    ensures ReadAll(rules, input) == ([body] + ReadAll(rules, rest).0, ReadAll(rules, rest).1)
  {
    hide ReadMessage;
  }

  lemma FramesStep(bodies: seq<Bytes>)
    requires bodies != []
    ensures Frames(bodies) == Frame(bodies[0]) + Frames(bodies[1..]) && bodies == [bodies[0]] + bodies[1..]
  {
    hide Frame;
  }

  lemma NothingLeft(rules: TextRules)
    ensures ReadAll(rules, []) == ([], true) && Frames([]) == []
  {
    NothingAfter(rules, 0);
  }

  /** Whatever the bodies hold, reading back their frames returns them all and then the end. */
  lemma {:induction false} StreamReadsBack(rules: TextRules, bodies: seq<Bytes>)
    requires Faithful(rules) && forall i | 0 <= i < |bodies| :: |bodies[i]| <= USIZE_MAX
    ensures ReadAll(rules, Frames(bodies)) == (bodies, true)
  {
    hide ReadAll, ReadMessage, Frames, Frame, Faithful;
    if bodies == [] {
      NothingLeft(rules);
    } else {
      FramesStep(bodies);
      FrameReadsBack(rules, bodies[0], Frames(bodies[1..]));
      ReadAllStep(rules, Frames(bodies), bodies[0], Frames(bodies[1..]));
      StreamReadsBack(rules, bodies[1..]);
    }
  }

  lemma CutHeader(rules: TextRules, n: nat, tail: Bytes)
    requires Faithful(rules) && n <= USIZE_MAX && tail < EOL
    ensures var r := ReadMessage(rules, LengthLine(n) + tail);
            && (r.Body? <==> n == 0 && tail == ['\r'])
            && (r.Body? ==> r == Body([], []))
  {
    AfterLengthLine(rules, n, tail);
    NothingAfter(rules, n);
    BlankLineEnds(rules, n, []);
    hide Headers, LengthLine, Faithful;
    assert tail == [] || tail == ['\r'];
  }

  lemma CutBody(rules: TextRules, body: Bytes, part: Bytes)
    requires Faithful(rules) && |body| <= USIZE_MAX && |part| < |body|
    ensures !ReadMessage(rules, LengthLine(|body|) + EOL + part).Body?
  {
    HeadersOfFrame(rules, |body|, part);
    hide Headers, LengthLine, Faithful;
  }

  /** A frame cut short yields nothing, but for an empty body whose last newline alone is missing. */
  lemma CutFrame(rules: TextRules, body: Bytes, cut: nat)
    requires Faithful(rules) && |body| <= USIZE_MAX && cut < |Frame(body)|
    ensures var r := ReadMessage(rules, Frame(body)[..cut]);
            && (r.Body? <==> body == [] && cut == |Frame(body)| - 1)
            && (r.Body? ==> r == Body(body, []))
  {
    hide ReadMessage, LengthLine, Faithful;
    var line := LengthLine(|body|);
    var input := Frame(body)[..cut];
    if cut < |line| {
      LengthLineIsOneLine(|body|, []);
      assert input == line[..cut];
      OneLineEnds(rules, input);
    } else if cut < |line| + 2 {
      assert input == line + EOL[..cut - |line|];
      CutHeader(rules, |body|, EOL[..cut - |line|]);
    } else {
      assert input == line + EOL + body[..cut - |line| - 2];
      CutBody(rules, body, body[..cut - |line| - 2]);
    }
  }

  lemma NothingAfter(rules: TextRules, n: nat)
    ensures Headers(rules, [], Some(n)) == Ended && Headers(rules, [], None) == Ended
    ensures ReadMessage(rules, []) == EndOfStream
  {
  }

  /** Without a newline there is at most a header line, and no blank line that ends the header. */
  lemma OneLineEnds(rules: TextRules, input: Bytes)
    requires '\n' !in input
    ensures !ReadMessage(rules, input).Body?
  {
    LineOf(input, []);
    assert input[|input|..] == [] && input[..|input|] == input;
    var known := HeaderLine(rules, TrimEol(input), None);
    NothingAfter(rules, if known.Some? && known.value.Some? then known.value.value else 0);
    hide TrimEol, HeaderLine, LineLength;
  }

  /** However early the stream breaks off, the bodies handed on are the first of those sent. */
  lemma {:induction false} CutStreamYieldsPrefix(rules: TextRules, bodies: seq<Bytes>, cut: nat)
    requires Faithful(rules) && forall i | 0 <= i < |bodies| :: |bodies[i]| <= USIZE_MAX
    ensures cut <= |Frames(bodies)| ==> ReadAll(rules, Frames(bodies)[..cut]).0 <= bodies
  {
    hide ReadAll, ReadMessage, Frames, Frame, Faithful;
    NothingLeft(rules);
    if bodies != [] && cut <= |Frames(bodies)| {
      FramesStep(bodies);
      var first := Frame(bodies[0]);
      if cut < |first| {
        assert Frames(bodies)[..cut] == first[..cut];
        CutFrame(rules, bodies[0], cut);
        CutReads(rules, first[..cut], bodies[0]);
      } else {
        var rest := Frames(bodies[1..])[..cut - |first|];
        assert Frames(bodies)[..cut] == first + rest;
        FrameReadsBack(rules, bodies[0], rest);
        ReadAllStep(rules, first + rest, bodies[0], rest);
        CutStreamYieldsPrefix(rules, bodies[1..], cut - |first|);
      }
    }
  }

  lemma CutReads(rules: TextRules, input: Bytes, body: Bytes)
    requires ReadMessage(rules, input).Body? ==> ReadMessage(rules, input) == Body(body, [])
    ensures ReadAll(rules, input).0 <= [body]
  {
    hide ReadMessage;
    NothingLeft(rules);
  }
}
