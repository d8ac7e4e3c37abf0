/**
 * The small rules of the user system's identity handling: how an address
 * is shortened for display, the `address|signature` login string, the
 * bytes that are signed for an Aeternity signed message, and the checks a
 * new password and an imported mnemonic must pass.
 */
module Identity {
  import opened Wrappers
  import opened PyStr

  // ---------------------------------------------------------------------
  // Address display

  /** `short_address`: the first 8 characters, `...` and the last 6 when the address is longer than 16. */
  function ShortAddress(address: string): (r: string)
    ensures |address| <= 16 ==> r == address
    ensures |address| > 16 ==> |r| == 17 && r[..8] == address[..8] && r[8..11] == "..." && r[11..] == address[|address| - 6..]
  {
    if |address| > 16 then address[..8] + "..." + address[|address| - 6..] else address
  }

  /** A shortened address is never longer than 17 characters, and shortening it again changes nothing. */
  lemma ShortAddressIdempotent(address: string)
    ensures |ShortAddress(address)| <= 17
    ensures ShortAddress(ShortAddress(address)) == ShortAddress(address)
  {
    var r := ShortAddress(address);
    if |address| > 16 {
      assert r[..8] + "..." + r[|r| - 6..] == r[..8] + r[8..11] + r[11..];
      assert r == r[..8] + r[8..11] + r[11..];
    }
  }

  /** Two long addresses with the same ends shorten alike; a short address is shown in full. */
  lemma ShortAddressKeepsEnds(a: string, b: string)
    requires |a| > 16 && |b| > 16
    ensures ShortAddress(a) == ShortAddress(b) <==> a[..8] == b[..8] && a[|a| - 6..] == b[|b| - 6..]
  {
    var ra, rb := ShortAddress(a), ShortAddress(b);
    if ra == rb {
      assert ra[..8] == rb[..8] && ra[11..] == rb[11..];
    } else {
      assert ra == a[..8] + "..." + a[|a| - 6..];
    }
  }

  // ---------------------------------------------------------------------
  // Login string

  /** The login string shown after signing: address, `|`, signature. */
  function LoginString(address: string, signature: string): string {
    address + "|" + signature
  }

  /**
   * `_parse_login_string`: the stripped input is split at its first `|` into
   * the address and signature fields; without a `|` the fields keep their
   * previous values.
   */
  function ParseLoginString(fields: (string, string), input: string): (r: (string, string))
    ensures '|' !in Strip(input) ==> r == fields
    ensures '|' in Strip(input) ==> '|' !in r.0 && Strip(input) == r.0 + "|" + r.1
  {
    match SplitOnce(Strip(input), '|')
    case None => fields
    case Some((address, signature)) => (address, signature)
  }

  /**
   * A login string parses back into its address and signature, whatever the
   * previous fields; the signature may itself contain `|`.
   */
  lemma LoginStringRoundTrip(fields: (string, string), address: string, signature: string)
    requires '|' !in address
    requires address == [] || !IsSpace(address[0])
    requires signature == [] || !IsSpace(signature[|signature| - 1])
    ensures ParseLoginString(fields, LoginString(address, signature)) == (address, signature)
  {
    var s := LoginString(address, signature);
    assert s == address + ['|'] + signature;
    assert s[0] == if address == [] then '|' else address[0];
    assert s[|s| - 1] == if signature == [] then '|' else signature[|signature| - 1];
    TrimUnchanged(s, Whitespace);
    SplitOnceAt(address, signature, '|');
  }

  // ---------------------------------------------------------------------
  // Aeternity signed messages

  type byte = x: int | 0 <= x < 256

  /** The bytes of an ASCII string. */
  function AsciiBytes(s: string): (r: seq<byte>)
    requires forall i :: 0 <= i < |s| ==> s[i] as int < 256
    ensures |r| == |s| && forall i :: 0 <= i < |s| ==> r[i] == s[i] as int
  {
    seq(|s|, i requires 0 <= i < |s| => s[i] as int)
  }

  /** `AE_PREFIX`, `b'aeternity Signed Message:\n'`. */
  function AePrefix(): (r: seq<byte>)
    ensures |r| == 26
  {
    AsciiBytes("aeternity Signed Message:\n")
  }

  const Two32: int := 0x1_0000_0000

  /** `n.to_bytes(4, 'big')`: the base-256 digits of `n`, most significant first. */
  function BigEndian4(n: int): (r: seq<byte>)
    requires 0 <= n < Two32
    ensures |r| == 4
  {
    [n / 256 / 256 / 256 % 256, n / 256 / 256 % 256, n / 256 % 256, n % 256]
  }

  /** `int.from_bytes(b, 'big')` for four bytes. */
  function FromBigEndian4(b: seq<byte>): (n: int)
    requires |b| == 4
    ensures 0 <= n < Two32
  {
    ((b[0] as int * 256 + b[1]) * 256 + b[2]) * 256 + b[3]
  }

  /** One base-256 digit: appending a digit and dividing by 256 give back the parts. */
  lemma DigitStep(q: int, d: int)
    requires 0 <= d < 256
    ensures (q * 256 + d) / 256 == q && (q * 256 + d) % 256 == d
  {
  }

  /** Decoding the four bytes of a 32-bit number gives the number back. */
  lemma BigEndian4Decodes(n: int)
    requires 0 <= n < Two32
    ensures FromBigEndian4(BigEndian4(n)) == n
  {
    var q1 := n / 256;
    var q2 := q1 / 256;
    var q3 := q2 / 256;
    assert n == q1 * 256 + n % 256;
    assert q1 == q2 * 256 + q1 % 256;
    assert q2 == q3 * 256 + q2 % 256;
    assert q3 < 256;
  }

  /** Encoding the number four bytes stand for gives the bytes back. */
  lemma BigEndian4Encodes(b: seq<byte>)
    requires |b| == 4
    ensures BigEndian4(FromBigEndian4(b)) == b
  {
    var x2: int := b[0] as int * 256 + b[1];
    var x3: int := x2 * 256 + b[2];
    var x: int := x3 * 256 + b[3];
    DigitStep(x3, b[3]);
    DigitStep(x2, b[2]);
    DigitStep(b[0], b[1]);
    assert x3 == x / 256 && x2 == x / 256 / 256 && b[0] == x / 256 / 256 / 256;
  }

  /**
   * The data signed for a challenge or a prefixed message: the prefix, the
   * message length as four big-endian bytes, the message. A message of 2^32
   * bytes or more has no four-byte length, and `to_bytes` raises.
   */
  function SignedMessage(msg: seq<byte>): (r: Option<seq<byte>>)
    ensures r.None? <==> |msg| >= Two32
    ensures r.Some? ==> |r.value| == 30 + |msg| && r.value[..26] == AePrefix() && r.value[30..] == msg
  {
    if |msg| >= Two32 then None else Some(AePrefix() + BigEndian4(|msg|) + msg)
  }

  /** The reading side: check the prefix and the length, and return the message. */
  function ParseSignedMessage(data: seq<byte>): Option<seq<byte>> {
    if |data| >= 30 && data[..26] == AePrefix() && FromBigEndian4(data[26..30]) == |data| - 30
    then Some(data[30..]) else None
  }

  /** Parsing the signed data gives back the message, and only data built from a message parses. */
  lemma SignedMessageRoundTrip(msg: seq<byte>, data: seq<byte>)
    ensures SignedMessage(msg).Some? ==> ParseSignedMessage(SignedMessage(msg).value) == Some(msg)
    ensures ParseSignedMessage(data).Some? ==> SignedMessage(ParseSignedMessage(data).value) == Some(data)
  {
    if SignedMessage(msg).Some? {
      var d := SignedMessage(msg).value;
      assert d[26..30] == BigEndian4(|msg|);
      BigEndian4Decodes(|msg|);
    }
    if ParseSignedMessage(data).Some? {
      var m := data[30..];
      BigEndian4Encodes(data[26..30]);
      assert data == data[..26] + data[26..30] + m;
    }
  }

  /** Different messages are never signed as the same data. */
  lemma SignedMessageInjective(m1: seq<byte>, m2: seq<byte>)
    requires SignedMessage(m1).Some? && SignedMessage(m1) == SignedMessage(m2)
    ensures m1 == m2
  {
    SignedMessageRoundTrip(m1, []);
    SignedMessageRoundTrip(m2, []);
  }

  /** The three ways the message-signing dialog prepares the data to sign. */
  datatype SignMethod = Direct | Prefixed | Hashed

  /** The signed data for a method; `msgHash` is the message's BLAKE2b digest, computed outside the model. */
  function SignData(how: SignMethod, msg: seq<byte>, msgHash: seq<byte>): (r: Option<seq<byte>>)
    ensures how.Direct? ==> r == Some(msg)
    ensures how.Prefixed? ==> r == SignedMessage(msg)
    ensures how.Hashed? ==> r == Some(msgHash)
  {
    match how
    case Direct => Some(msg)
    case Prefixed => SignedMessage(msg)
    case Hashed => Some(msgHash)
  }

  // ---------------------------------------------------------------------
  // Password and mnemonic checks

  /** The outcome of the checks on a new password and its confirmation, in the order they are made. */
  datatype PasswordCheck = PasswordAccepted | EmptyPassword | PasswordTooShort | PasswordMismatch

  const MinPasswordLength := 6

  function ValidatePassword(password: string, confirm: string): (r: PasswordCheck)
    ensures r == EmptyPassword <==> password == []
    ensures r == PasswordTooShort <==> password != [] && |password| < MinPasswordLength
    ensures r == PasswordMismatch <==> |password| >= MinPasswordLength && password != confirm
  {
    if password == [] then EmptyPassword
    else if |password| < MinPasswordLength then PasswordTooShort
    else if password != confirm then PasswordMismatch
    else PasswordAccepted
  }

  /** A password is accepted exactly when it has at least six characters and is confirmed. */
  lemma PasswordAcceptedIff(password: string, confirm: string)
    ensures ValidatePassword(password, confirm) == PasswordAccepted <==>
      |password| >= MinPasswordLength && password == confirm
  {
  }

  /** The outcome of the mnemonic check: the words, or why they were refused. */
  datatype MnemonicCheck = MnemonicAccepted(words: seq<string>) | EmptyMnemonic | WrongWordCount(count: nat)

  /** `_validate_and_next`: strip, refuse empty text, split on whitespace, require 12 or 24 words. */
  function ValidateMnemonic(text: string): (r: MnemonicCheck)
    ensures r.WrongWordCount? ==> r.count != 12 && r.count != 24
    ensures r.MnemonicAccepted? ==> |r.words| == 12 || |r.words| == 24
  {
    var mnemonic := Strip(text);
    if mnemonic == [] then EmptyMnemonic
    else
      var words := SplitWhitespace(mnemonic);
      if |words| != 12 && |words| != 24 then WrongWordCount(|words|)
      else MnemonicAccepted(words)
  }

  /**
   * The check depends only on the words of the text: it is accepted exactly
   * when the text has 12 or 24 whitespace-separated words, and then it
   * yields those words; blank text is reported as empty.
   */
  lemma MnemonicAcceptedIff(text: string)
    ensures ValidateMnemonic(text).MnemonicAccepted? <==>
      |SplitWhitespace(text)| == 12 || |SplitWhitespace(text)| == 24
    ensures ValidateMnemonic(text).MnemonicAccepted? ==> ValidateMnemonic(text).words == SplitWhitespace(text)
    ensures ValidateMnemonic(text) == EmptyMnemonic <==> SplitWhitespace(text) == []
  {
    SplitStripped(text);
    var m := Strip(text);
    if m != [] {
      TrimBothSpec(text, Whitespace);
      assert m[0] !in Whitespace;
      assert SplitWhitespace(m) != [];
    }
  }

  /** Twelve or twenty-four words joined by spaces are accepted as exactly those words. */
  lemma MnemonicRoundTrip(words: seq<string>)
    requires |words| == 12 || |words| == 24
    requires forall k :: 0 <= k < |words| ==> words[k] != [] && NoSpace(words[k])
    ensures ValidateMnemonic(Join(words, " ")) == MnemonicAccepted(words)
  {
    SplitJoin(words);
    MnemonicAcceptedIff(Join(words, " "));
  }
}
