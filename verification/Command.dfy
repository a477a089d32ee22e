/** The text format of client commands: a verb and its arguments separated by blanks,
    numbers in decimal and values in base64 (section 4 of RFC 4648). */
module Command {
  import opened Requests

  /** What 64-bit numbers stay below. */
  const TWO_64: int := 0x1_0000_0000_0000_0000

  type Byte = b: int | 0 <= b < 256
  type UInt32 = n: int | 0 <= n < 0x1_0000_0000
  type Int64 = n: int | -0x8000_0000_0000_0000 <= n < 0x8000_0000_0000_0000

  datatype Command =
    | Put(key: string, value: seq<Byte>)
    | Get(key: string)
    | Delete(key: string)
    | Transfer(fromGroup: UInt32, fromKey: string, toGroup: UInt32, toKey: string, amount: Int64)

  // ----- words -----

  /** White space in the sense of the Unicode property, as `strings.Fields` splits at it. */
  predicate IsSpace(c: char) {
    var n := c as int;
    n in {9, 10, 11, 12, 13, 32, 0x85, 0xA0, 0x1680, 0x2028, 0x2029, 0x202F, 0x205F, 0x3000} || 0x2000 <= n <= 0x200A
  }

  predicate IsWord(w: string) {
    w != [] && forall i :: 0 <= i < |w| ==> !IsSpace(w[i])
  }

  function WordLength(s: string): (n: nat)
    ensures n <= |s|
    ensures forall i :: 0 <= i < n ==> !IsSpace(s[i])
    ensures n < |s| ==> IsSpace(s[n])
  {
    if s == [] || IsSpace(s[0]) then 0 else 1 + WordLength(s[1..])
  }

  /** The maximal runs of non-blank characters. */
  function Fields(s: string): (words: seq<string>)
    ensures forall i :: 0 <= i < |words| ==> IsWord(words[i])
    decreases |s|
  {
    if s == [] then []
    else if IsSpace(s[0]) then Fields(s[1..])
    else [s[..WordLength(s)]] + Fields(s[WordLength(s)..])
  }

  lemma {:induction false} WordLengthOf(w: string, rest: string)
    requires forall i :: 0 <= i < |w| ==> !IsSpace(w[i])
    requires rest == [] || IsSpace(rest[0])
    ensures WordLength(w + rest) == |w|
  {
    if w == [] {
      assert w + rest == rest;
    } else {
      assert (w + rest)[1..] == w[1..] + rest;
      WordLengthOf(w[1..], rest);
    }
  }

  lemma FieldsFirst(w: string, rest: string)
    requires IsWord(w) && (rest == [] || IsSpace(rest[0]))
    ensures Fields(w + rest) == [w] + Fields(rest)
  {
    WordLengthOf(w, rest);
    assert (w + rest)[..|w|] == w && (w + rest)[|w|..] == rest;
  }

  /** Words joined by single blanks. */
  function Sentence(words: seq<string>): string {
    if words == [] then "" else if |words| == 1 then words[0] else words[0] + " " + Sentence(words[1..])
  }

  lemma {:induction false} FieldsOfSentence(words: seq<string>)
    requires forall i :: 0 <= i < |words| ==> IsWord(words[i])
    ensures Fields(Sentence(words)) == words
  {
    if words != [] {
      var rest := if |words| == 1 then "" else " " + Sentence(words[1..]);
      assert Sentence(words) == words[0] + rest;
      FieldsFirst(words[0], rest);
      FieldsOfSentence(words[1..]);
      if |words| > 1 {
        assert rest[1..] == Sentence(words[1..]);
      }
    }
  }

  // ----- decimal numbers -----

  function Digit(d: int): char
    requires 0 <= d < 10
  {
    '0' + d as char
  }

  predicate IsDigit(c: char) {
    '0' <= c <= '9'
  }

  predicate IsNumeral(s: string) {
    s != [] && forall i :: 0 <= i < |s| ==> IsDigit(s[i])
  }

  function FormatUint(n: nat): (s: string)
    ensures IsNumeral(s)
  {
    if n < 10 then [Digit(n)] else FormatUint(n / 10) + [Digit(n % 10)]
  }

  function FormatInt(n: int): string {
    if n < 0 then "-" + FormatUint(-n) else FormatUint(n)
  }

  function DigitValue(c: char): (d: nat)
    requires IsDigit(c)
    ensures d < 10 && Digit(d) == c
  {
    c as int - '0' as int
  }

  function ValueOf(s: string): nat
    requires forall i :: 0 <= i < |s| ==> IsDigit(s[i])
  {
    if s == [] then 0 else ValueOf(s[..|s| - 1]) * 10 + DigitValue(s[|s| - 1])
  }

  /** An unsigned 32-bit number; no sign is accepted. */
  function ParseUint32(s: string): Option<UInt32> {
    if IsNumeral(s) && ValueOf(s) < 0x1_0000_0000 then Some(ValueOf(s)) else None
  }

  /** A signed 64-bit number with an optional sign. */
  function ParseInt64(s: string): Option<Int64> {
    var digits := if s != [] && (s[0] == '-' || s[0] == '+') then s[1..] else s;
    if !IsNumeral(digits) then None
    else
      var n: int := if s[0] == '-' then 0 - ValueOf(digits) else ValueOf(digits);
      if -0x8000_0000_0000_0000 <= n < 0x8000_0000_0000_0000 then Some(n) else None
  }

  lemma {:induction false} ValueOfFormat(n: nat)
    ensures ValueOf(FormatUint(n)) == n
  {
    if n >= 10 {
      ValueOfFormat(n / 10);
      assert FormatUint(n)[..|FormatUint(n)| - 1] == FormatUint(n / 10);
    } else {
      assert FormatUint(n)[..0] == [];
    }
  }

  lemma UintRoundTrip(n: UInt32)
    ensures ParseUint32(FormatUint(n)) == Some(n) && IsWord(FormatUint(n))
  {
    ValueOfFormat(n);
  }

  lemma NegativeParses(digits: string, n: nat)
    requires IsNumeral(digits) && ValueOf(digits) == n <= 0x8000_0000_0000_0000
    ensures ParseInt64("-" + digits) == Some(0 - n) && IsWord("-" + digits)
  {
    assert ("-" + digits)[1..] == digits;
  }

  lemma PositiveParses(digits: string, n: nat)
    requires IsNumeral(digits) && ValueOf(digits) == n < 0x8000_0000_0000_0000
    ensures ParseInt64(digits) == Some(n) && IsWord(digits)
  {
    assert IsDigit(digits[0]);
  }

  lemma IntRoundTrip(n: Int64)
    ensures ParseInt64(FormatInt(n)) == Some(n) && IsWord(FormatInt(n))
  {
    if n < 0 {
      ValueOfFormat(0 - n);
      NegativeParses(FormatUint(0 - n), 0 - n);
    } else {
      ValueOfFormat(n);
      PositiveParses(FormatUint(n), n);
    }
  }

  // ----- base64 -----

  /** A symbol of the alphabet by its value, or the padding. */
  const PAD := 64
  type Code = c: int | 0 <= c <= PAD

  function Symbol(c: Code): char {
    if c < 26 then 'A' + c as char
    else if c < 52 then 'a' + (c - 26) as char
    else if c < 62 then '0' + (c - 52) as char
    else if c == 62 then '+' else if c == 63 then '/' else '='
  }

  function CodeOf(c: char): Option<Code> {
    if 'A' <= c <= 'Z' then Some(c as int - 'A' as int)
    else if 'a' <= c <= 'z' then Some(c as int - 'a' as int + 26)
    else if '0' <= c <= '9' then Some(c as int - '0' as int + 52)
    else if c == '+' then Some(62) else if c == '/' then Some(63)
    else if c == '=' then Some(PAD) else None
  }

  lemma CodeOfSymbol(c: Code)
    ensures CodeOf(Symbol(c)) == Some(c) && !IsSpace(Symbol(c))
  {
  }

  function TextOf(codes: seq<Code>): string {
    if codes == [] then "" else [Symbol(codes[0])] + TextOf(codes[1..])
  }

  function CodesOf(s: string): Option<seq<Code>> {
    if s == "" then Some([])
    else
      match (CodeOf(s[0]), CodesOf(s[1..]))
      case (Some(c), Some(rest)) => Some([c] + rest)
      case _ => None
  }

  lemma {:induction false} CodesOfText(codes: seq<Code>)
    ensures CodesOf(TextOf(codes)) == Some(codes)
    ensures |TextOf(codes)| == |codes|
    ensures forall i :: 0 <= i < |codes| ==> !IsSpace(TextOf(codes)[i])
  {
    if codes != [] {
      CodeOfSymbol(codes[0]);
      CodesOfText(codes[1..]);
      assert TextOf(codes)[1..] == TextOf(codes[1..]);
      assert codes == [codes[0]] + codes[1..];
    }
  }

  function Sextets(b0: Byte, b1: Byte, b2: Byte): seq<Code> {
    [b0 / 4, b0 % 4 * 16 + b1 / 16, b1 % 16 * 4 + b2 / 64, b2 % 64]
  }

  /** Three bytes are four symbols; one or two left over are padded. */
  function CodesOfBytes(v: seq<Byte>): seq<Code> {
    if v == [] then []
    else if |v| == 1 then Sextets(v[0], 0, 0)[..2] + [PAD, PAD]
    else if |v| == 2 then Sextets(v[0], v[1], 0)[..3] + [PAD]
    else Sextets(v[0], v[1], v[2]) + CodesOfBytes(v[3..])
  }

  function Octets(c0: Code, c1: Code, c2: Code, c3: Code): seq<Byte>
    requires c0 < PAD && c1 < PAD && c2 < PAD && c3 < PAD
  {
    [c0 * 4 + c1 / 16, c1 % 16 * 16 + c2 / 4, c2 % 4 * 64 + c3]
  }

  /** Padding may only end the text; bits that do not make up a byte are ignored. */
  function BytesOfCodes(codes: seq<Code>): Option<seq<Byte>> {
    if codes == [] then Some([])
    else if |codes| < 4 || codes[0] == PAD || codes[1] == PAD then None
    else if codes[2] == PAD then
      if codes[3..] == [PAD] then Some(Octets(codes[0], codes[1], 0, 0)[..1]) else None
    else if codes[3] == PAD then
      if |codes| == 4 then Some(Octets(codes[0], codes[1], codes[2], 0)[..2]) else None
    else
      match BytesOfCodes(codes[4..])
      case Some(rest) => Some(Octets(codes[0], codes[1], codes[2], codes[3]) + rest)
      case None => None
  }

  /** Two numbers packed into one, the lower one below 4, 16 or 64. */
  lemma Packed(high: nat, low: nat)
    ensures low < 4 ==> (high * 4 + low) / 4 == high && (high * 4 + low) % 4 == low
    ensures low < 16 ==> (high * 16 + low) / 16 == high && (high * 16 + low) % 16 == low
    ensures low < 64 ==> (high * 64 + low) / 64 == high && (high * 64 + low) % 64 == low
  {
  }

  /** Twenty-four bits, as three bytes and as four symbols. */
  lemma Quantum(b0: Byte, b1: Byte, b2: Byte)
    ensures var c := Sextets(b0, b1, b2);
      && c[0] < PAD && c[1] < PAD && c[2] < PAD && c[3] < PAD
      && Octets(c[0], c[1], c[2], c[3]) == [b0, b1, b2]
  {
    Packed(b0 % 4, b1 / 16);
    Packed(b1 % 16, b2 / 64);
  }

  lemma {:induction false} BytesOfCodesOfBytes(v: seq<Byte>)
    ensures BytesOfCodes(CodesOfBytes(v)) == Some(v)
  {
    var codes := CodesOfBytes(v);
    if |v| == 1 {
      Quantum(v[0], 0, 0);
      assert codes[2] == PAD && codes[3..] == [PAD];
      assert Octets(codes[0], codes[1], 0, 0) == [v[0], 0, 0];
      assert Octets(codes[0], codes[1], 0, 0)[..1] == [v[0]];
      assert v == [v[0]];
    } else if |v| == 2 {
      Quantum(v[0], v[1], 0);
      assert codes[2] != PAD && codes[3] == PAD;
      assert Octets(codes[0], codes[1], codes[2], 0) == [v[0], v[1], 0];
      assert Octets(codes[0], codes[1], codes[2], 0)[..2] == [v[0], v[1]];
      assert v == [v[0], v[1]];
    } else if |v| >= 3 {
      Quantum(v[0], v[1], v[2]);
      BytesOfCodesOfBytes(v[3..]);
      assert codes[4..] == CodesOfBytes(v[3..]);
      assert v == [v[0], v[1], v[2]] + v[3..];
    }
  }

  function EncodeBase64(v: seq<Byte>): string {
    TextOf(CodesOfBytes(v))
  }

  function DecodeBase64(s: string): Option<seq<Byte>> {
    match CodesOf(s)
    case Some(codes) => BytesOfCodes(codes)
    case None => None
  }

  lemma Base64RoundTrip(v: seq<Byte>)
    ensures DecodeBase64(EncodeBase64(v)) == Some(v)
    ensures v != [] ==> IsWord(EncodeBase64(v))
  {
    CodesOfText(CodesOfBytes(v));
    BytesOfCodesOfBytes(v);
  }

  // ----- commands -----

  function EncodePut(key: string, value: seq<Byte>): string {
    Sentence(["APIPUT", key, EncodeBase64(value)])
  }

  function EncodeGet(key: string): string {
    Sentence(["APIGET", key])
  }

  function EncodeDelete(key: string): string {
    Sentence(["APIDELETE", key])
  }

  function EncodeTransfer(fromGroup: UInt32, fromKey: string, toGroup: UInt32, toKey: string, amount: Int64): string {
    Sentence(["APITRANSFER", FormatUint(fromGroup), fromKey, FormatUint(toGroup), toKey, FormatInt(amount)])
  }

  function Encode(c: Command): string {
    match c
    case Put(key, value) => EncodePut(key, value)
    case Get(key) => EncodeGet(key)
    case Delete(key) => EncodeDelete(key)
    case Transfer(fromGroup, fromKey, toGroup, toKey, amount) => EncodeTransfer(fromGroup, fromKey, toGroup, toKey, amount)
  }

  /** Recognises a payload as a command; anything else, benchmark payloads included, is None. */
  function DecodeAPICommand(payload: string): Option<Command> {
    DecodeFields(Fields(payload))
  }

  function DecodeFields(parts: seq<string>): Option<Command> {
    if |parts| == 0 then None
    else if parts[0] == "APIPUT" then
      if |parts| < 3 then None
      else
        match DecodeBase64(parts[2])
        case Some(value) => Some(Put(parts[1], value))
        case None => None
    else if parts[0] == "APIGET" then
      if |parts| < 2 then None else Some(Get(parts[1]))
    else if parts[0] == "APIDELETE" then
      if |parts| < 2 then None else Some(Delete(parts[1]))
    else if parts[0] == "APITRANSFER" then
      if |parts| < 6 then None
      else DecodeTransfer(ParseUint32(parts[1]), parts[2], ParseUint32(parts[3]), parts[4], ParseInt64(parts[5]))
    else None
  }

  function DecodeTransfer(fromGroup: Option<UInt32>, fromKey: string, toGroup: Option<UInt32>, toKey: string,
                          amount: Option<Int64>): Option<Command> {
    if fromGroup == None || toGroup == None || amount == None then None
    else Some(Transfer(fromGroup.value, fromKey, toGroup.value, toKey, amount.value))
  }

  /** The words of a payload say a command: its verb, then its arguments; more words may follow. */
  predicate Says(words: seq<string>, c: Command) {
    match c
    case Put(key, value) => |words| >= 3 && words[0] == "APIPUT" && words[1] == key && DecodeBase64(words[2]) == Some(value)
    case Get(key) => |words| >= 2 && words[0] == "APIGET" && words[1] == key
    case Delete(key) => |words| >= 2 && words[0] == "APIDELETE" && words[1] == key
    case Transfer(fromGroup, fromKey, toGroup, toKey, amount) =>
      && |words| >= 6 && words[0] == "APITRANSFER"
      && ParseUint32(words[1]) == Some(fromGroup) && words[2] == fromKey
      && ParseUint32(words[3]) == Some(toGroup) && words[4] == toKey
      && ParseInt64(words[5]) == Some(amount)
  }

  /** A payload is recognised as a command exactly when its words say that command. */
  lemma RecognisedExactly(payload: string, c: Command)
    ensures DecodeAPICommand(payload) == Some(c) <==> Says(Fields(payload), c)
  {
    SaysExactly(Fields(payload), c);
  }

  lemma SaysExactly(words: seq<string>, c: Command)
    ensures DecodeFields(words) == Some(c) <==> Says(words, c)
  {
    if |words| > 0 {
      assert words[0] == "APIPUT" ==> words[0] != "APIGET" && words[0] != "APIDELETE" && words[0] != "APITRANSFER" by {
        assert |"APIPUT"| == |"APIGET"| && "APIPUT"[3] != "APIGET"[3];
      }
      assert |"APIGET"| == 6 && |"APIDELETE"| == 9 && |"APITRANSFER"| == 11;
    }
  }

  /** The commands the format can carry. */
  predicate Encodable(c: Command) {
    match c
    case Put(key, value) => IsWord(key) && value != []
    case Get(key) => IsWord(key)
    case Delete(key) => IsWord(key)
    case Transfer(_, fromKey, _, toKey, _) => IsWord(fromKey) && IsWord(toKey)
  }

  lemma PutRoundTrips(key: string, value: seq<Byte>)
    requires IsWord(key) && value != []
    ensures DecodeAPICommand(EncodePut(key, value)) == Some(Put(key, value))
  {
    Base64RoundTrip(value);
    FieldsOfSentence(["APIPUT", key, EncodeBase64(value)]);
  }

  predicate IsTransferSentence(parts: seq<string>, fromGroup: UInt32, fromKey: string, toGroup: UInt32, toKey: string,
                               amount: Int64) {
    && |parts| == 6 && parts[0] == "APITRANSFER"
    && parts[1] == FormatUint(fromGroup) && parts[2] == fromKey
    && parts[3] == FormatUint(toGroup) && parts[4] == toKey
    && parts[5] == FormatInt(amount)
  }

  lemma TransferFields(parts: seq<string>, fromGroup: UInt32, fromKey: string, toGroup: UInt32, toKey: string, amount: Int64)
    requires IsTransferSentence(parts, fromGroup, fromKey, toGroup, toKey, amount)
    ensures DecodeFields(parts) == Some(Transfer(fromGroup, fromKey, toGroup, toKey, amount))
  {
    UintRoundTrip(fromGroup);
    UintRoundTrip(toGroup);
    IntRoundTrip(amount);
  }

  lemma TransferWords(parts: seq<string>, fromGroup: UInt32, fromKey: string, toGroup: UInt32, toKey: string, amount: Int64)
    requires IsTransferSentence(parts, fromGroup, fromKey, toGroup, toKey, amount)
    requires IsWord(fromKey) && IsWord(toKey)
    ensures forall i :: 0 <= i < |parts| ==> IsWord(parts[i])
  {
    VerbIsWord();
    UintRoundTrip(fromGroup);
    UintRoundTrip(toGroup);
    IntRoundTrip(amount);
  }

  lemma VerbIsWord()
    ensures IsWord("APITRANSFER")
  {
  }

  lemma TransferDecodes(parts: seq<string>, fromGroup: UInt32, fromKey: string, toGroup: UInt32, toKey: string, amount: Int64)
    requires IsTransferSentence(parts, fromGroup, fromKey, toGroup, toKey, amount)
    requires IsWord(fromKey) && IsWord(toKey)
    ensures DecodeAPICommand(Sentence(parts)) == Some(Transfer(fromGroup, fromKey, toGroup, toKey, amount))
  {
    TransferFields(parts, fromGroup, fromKey, toGroup, toKey, amount);
    TransferWords(parts, fromGroup, fromKey, toGroup, toKey, amount);
    FieldsOfSentence(parts);
  }

  lemma TransferRoundTrips(fromGroup: UInt32, fromKey: string, toGroup: UInt32, toKey: string, amount: Int64)
    requires IsWord(fromKey) && IsWord(toKey)
    ensures DecodeAPICommand(EncodeTransfer(fromGroup, fromKey, toGroup, toKey, amount))
            == Some(Transfer(fromGroup, fromKey, toGroup, toKey, amount))
  {
    var parts := ["APITRANSFER", FormatUint(fromGroup), fromKey, FormatUint(toGroup), toKey, FormatInt(amount)];
    TransferDecodes(parts, fromGroup, fromKey, toGroup, toKey, amount);
  }

  lemma EncodableRoundTrips(c: Command)
    requires Encodable(c)
    ensures DecodeAPICommand(Encode(c)) == Some(c)
  {
    match c
    case Put(key, value) => PutRoundTrips(key, value);
    case Get(key) => FieldsOfSentence(["APIGET", key]);
    case Delete(key) => FieldsOfSentence(["APIDELETE", key]);
    case Transfer(fromGroup, fromKey, toGroup, toKey, amount) =>
      TransferRoundTrips(fromGroup, fromKey, toGroup, toKey, amount);
  }

  /** A value that is stored empty leaves no field for it, and the command is not recognised. */
  lemma EmptyValueIsLost(key: string)
    requires IsWord(key)
    ensures DecodeAPICommand(EncodePut(key, [])) == None
  {
    var words := ["APIPUT", key, ""];
    assert words[1..] == [key, ""] && words[1..][1..] == [""];
    assert Sentence(words[1..]) == key + " ";
    assert EncodePut(key, []) == "APIPUT" + (" " + (key + " "));
    FieldsFirst("APIPUT", " " + (key + " "));
    assert (" " + (key + " "))[1..] == key + " ";
    FieldsFirst(key, " ");
    assert Fields(" ") == [];
  }

  /** Decoding an encoded command gives it back exactly when every key is a non-empty word
      and a stored value is not empty. */
  lemma RoundTrip(c: Command)
    ensures DecodeAPICommand(Encode(c)) == Some(c) <==> Encodable(c)
  {
    if Encodable(c) {
      EncodableRoundTrips(c);
    } else if c.Put? && IsWord(c.key) {
      EmptyValueIsLost(c.key);
    }
  }
}
