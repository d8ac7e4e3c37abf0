/**
 * The code-signature block that the IDE appends to a signed program, and
 * how signing and verifying find and cut it off again. The digest and the
 * ed25519 signature are computed outside the model: signing is described by
 * the text that gets hashed, verifying by the text it hashes again, and the
 * two agree exactly when the recomputed digest can match the claimed one.
 */
module CodeSignature {
  import opened Wrappers
  import opened PyStr

  /** The run of ten `=` on either side of a header's title. */
  const Rule: string := "=========="
  /** The header line of a signature block, `# ========== PYSTART CODE SIGNATURE ==========`. */
  const SignatureMarker: string := "# " + Rule + " PYSTART CODE SIGNATURE " + Rule
  /** The header line of the older block format, `# ========== CODE SIGNATURE ==========`, still recognised. */
  const LegacyMarker: string := "# " + Rule + " CODE SIGNATURE " + Rule
  /** The first variant searched for: the header at the start of a line. */
  const HeaderLine: string := "\n" + SignatureMarker
  /** How a block written by signing begins: an empty line, then the header. */
  const BlockHeader: string := "\n" + HeaderLine

  /** Whether code carries a signature block of either format. */
  predicate HasSignature(code: string) {
    Contains(code, SignatureMarker) || Contains(code, LegacyMarker)
  }

  /** The next line break after an occurrence of `"\n" + t` starts an occurrence of `t`. */
  lemma AfterNewline(s: string, t: string, i: int)
    requires OccursAt(s, "\n" + t, i)
    ensures OccursAt(s, t, i + 1)
  {
    assert s[i + 1..i + 1 + |t|] == s[i..i + |"\n" + t|][1..];
  }

  /** A marker preceded by a line break is a marker. */
  lemma NewlineMarkerFound(s: string, t: string)
    requires Contains(s, "\n" + t)
    ensures Contains(s, t)
  {
    AfterNewline(s, t, Find(s, "\n" + t));
    OccurrenceFound(s, t, Find(s, "\n" + t) + 1);
  }

  /**
   * Where the block starts: the four marker variants are tried in a fixed
   * order (the new header after a line break, the new header, the legacy
   * header after a line break, the legacy header) and the first occurrence
   * of the first variant found wins. It is -1 exactly when there is no
   * signature, and a new-format header always takes precedence over a
   * legacy one.
   */
  function SignatureStart(code: string): (r: int)
    ensures r == -1 <==> !HasSignature(code)
    ensures 0 <= r ==> r <= |code|
    ensures Contains(code, HeaderLine) ==> r == Find(code, HeaderLine)
    ensures Contains(code, SignatureMarker) ==> OccursAt(code, HeaderLine, r) || OccursAt(code, SignatureMarker, r)
    ensures !Contains(code, SignatureMarker) && 0 <= r ==> OccursAt(code, "\n" + LegacyMarker, r) || OccursAt(code, LegacyMarker, r)
    ensures !Contains(code, HeaderLine) && Contains(code, SignatureMarker) ==> r == Find(code, SignatureMarker)
    ensures !Contains(code, SignatureMarker) && Contains(code, "\n" + LegacyMarker) ==> r == Find(code, "\n" + LegacyMarker)
    ensures !Contains(code, SignatureMarker) && !Contains(code, "\n" + LegacyMarker) ==> r == Find(code, LegacyMarker)
  {
    var a := Find(code, HeaderLine);
    if a != -1 then
      NewlineMarkerFound(code, SignatureMarker);
      a
    else
      var b := Find(code, SignatureMarker);
      if b != -1 then b
      else
        var c := Find(code, "\n" + LegacyMarker);
        if c != -1 then
          NewlineMarkerFound(code, LegacyMarker);
          c
        else Find(code, LegacyMarker)
  }

  /**
   * The code with its signature block removed: cut at the block's start and
   * right-strip; code without a block is returned unchanged. What remains is
   * a prefix of the code that does not end in whitespace, followed in the
   * code only by whitespace up to the block.
   */
  function StripSignature(code: string): (r: string)
    ensures !HasSignature(code) ==> r == code
    ensures HasSignature(code) ==> var p := SignatureStart(code);
      && |r| <= p && r == code[..|r|]
      && (r == [] || !IsSpace(r[|r| - 1]))
      && AllIn(code[|r|..p], Whitespace)
  {
    var p := SignatureStart(code);
    if p == -1 then code
    else
      TrimEndSpec(code[..p], Whitespace);
      RStrip(code[..p])
  }

  /**
   * The signing and verifying commands' search for the block, step by step:
   * each marker variant is looked for only when the previous one was not
   * found, and the code is cut and right-stripped when one was.
   */
  method StripSignatureBlock(code: string) returns (stripped: string)
    ensures stripped == StripSignature(code)
  {
    var sigStart := Find(code, HeaderLine);
    if sigStart == -1 {
      sigStart := Find(code, SignatureMarker);
    }
    if sigStart == -1 {
      sigStart := Find(code, "\n" + LegacyMarker);
    }
    if sigStart == -1 {
      sigStart := Find(code, LegacyMarker);
    }
    stripped := code;
    if sigStart != -1 {
      stripped := RStrip(code[..sigStart]);
    }
  }

  /** The block appended to signed code: an empty line, the header, then the signing details. */
  function SignatureBlock(signer: string, time: string, hashHex: string, signature: string): (r: string)
    ensures |r| > |BlockHeader| && r[..|BlockHeader|] == BlockHeader
  {
    BlockHeader + SignatureDetails(signer, time, hashHex, signature)
  }

  /** The lines after the header: signer, time, digest, signature, method, the IDE's note and the closing rule. */
  function SignatureDetails(signer: string, time: string, hashHex: string, signature: string): string {
    "\n# Signer: " + signer
    + "\n# Time: " + time
    + "\n# Hash: " + hashHex
    + "\n# Signature: sg_" + signature
    + "\n# Method: blake2b-ed25519"
    + "\n# Signed with PyStart IDE (https://github.com/aeknow/PyStart)"
    + "\n# ============================================="
  }

  /**
   * The verifying command's recovery of the signed text: no block means
   * nothing to verify; otherwise the code before the block, right-stripped.
   * The block is always found when a marker is present, so the cut is
   * always inside the code.
   */
  function ExtractSignedCode(code: string): (r: Option<string>)
    ensures r.None? <==> !HasSignature(code)
    ensures r.Some? ==> r.value == StripSignature(code) && r.value == code[..|r.value|]
  {
    if HasSignature(code) then
      TrimEndSpec(code[..SignatureStart(code)], Whitespace);
      Some(RStrip(code[..SignatureStart(code)]))
    else None
  }

  /** The text that is hashed and the new editor content. */
  datatype Signing = Signing(hashed: string, signed: string)

  /** Signing as the code does it: strip an old block if there is one, hash what remains, append the new block to it. */
  function SignAsWritten(code: string, signer: string, time: string, hashHex: string, signature: string): (r: Signing)
    ensures r.signed == r.hashed + SignatureBlock(signer, time, hashHex, signature)
    ensures !HasSignature(code) ==> r.hashed == code
  {
    var text := if HasSignature(code) then StripSignature(code) else code;
    Signing(text, text + SignatureBlock(signer, time, hashHex, signature))
  }

  /** Signing with the hashed text right-stripped first, so that verifying recovers it. */
  function Sign(code: string, signer: string, time: string, hashHex: string, signature: string): (r: Signing)
    ensures r.signed == r.hashed + SignatureBlock(signer, time, hashHex, signature)
    ensures r.hashed == RStrip(StripSignature(code))
  {
    var text := RStrip(StripSignature(code));
    Signing(text, text + SignatureBlock(signer, time, hashHex, signature))
  }

  /** Text left by stripping never holds the new header after a line break. */
  lemma StrippedHasNoHeader(code: string)
    ensures !Contains(StripSignature(code), HeaderLine)
  {

    var r := StripSignature(code);
    if Contains(code, HeaderLine) {
      var a := Find(code, HeaderLine);
      AbsentBeforeFirst(code, HeaderLine);
      assert r == code[..a][..|r|];
      AbsentFromPrefix(code[..a], HeaderLine, |r|);
    } else if HasSignature(code) {
      AbsentFromPrefix(code, HeaderLine, |r|);
    }
  }

  /** A line break occurs in the header line only at its start. */
  lemma NoNewlineInHeader(k: int)
    requires 1 <= k < |HeaderLine|
    ensures HeaderLine[k] != '\n'
  {
    assert '\n' !in SignatureMarker;
    assert HeaderLine[k] == SignatureMarker[k - 1];
  }

  /** The header line of an appended block sits right after the text and its line break. */
  lemma HeaderAfter(text: string, block: string)
    requires |block| > |BlockHeader| && block[..|BlockHeader|] == BlockHeader
    ensures OccursAt(text + block, HeaderLine, |text| + 1)
  {
    var s, at := text + block, |text| + 1;
    assert s[at..at + |HeaderLine|] == block[1..|BlockHeader|] == BlockHeader[1..];
  }

  /**
   * No header line starts inside text free of one, or at its end: one that
   * ran into the block would need a line break inside the header, and the
   * block's second character is a line break rather than the header's `#`.
   */
  lemma NoHeaderBefore(text: string, block: string, j: int)
    requires !Contains(text, HeaderLine)
    requires |block| > |BlockHeader| && block[..|BlockHeader|] == BlockHeader
    requires 0 <= j <= |text|
    ensures !OccursAt(text + block, HeaderLine, j)
  {
    var s, n := text + block, |HeaderLine|;
    if j + n > |s| {
    } else if j + n <= |text| {
      assert Find(text, HeaderLine) == -1;
      assert !OccursAt(text, HeaderLine, j);
      assert s[j..j + n] == text[j..j + n];
    } else if j < |text| {
      var k := |text| - j;
      NoNewlineInHeader(k);
      assert s[j..j + n][k] == block[0] == BlockHeader[0] == '\n';
    } else {
      assert s[j..j + n][1] == block[1] == BlockHeader[1] == '\n';
      assert HeaderLine[1] == SignatureMarker[0] == '#';
    }
  }

  /**
   * Appending a block to text free of the header line puts the block's
   * start right after the text.
   */
  lemma BlockFoundAfter(text: string, block: string)
    requires !Contains(text, HeaderLine)
    requires |block| > |BlockHeader| && block[..|BlockHeader|] == BlockHeader
    ensures OccursAt(text + block, HeaderLine, |text| + 1)
    ensures SignatureStart(text + block) == |text| + 1
  {
    var s := text + block;
    forall j | 0 <= j < |text| + 1
      ensures !OccursAt(s, HeaderLine, j)
    {
      NoHeaderBefore(text, block, j);
    }
    HeaderAfter(text, block);
    OccurrenceFound(s, HeaderLine, |text| + 1);
  }

  /** Verifying signed text recovers the signed text right-stripped. */
  lemma VerifyRecoversStripped(text: string, block: string)
    requires !Contains(text, HeaderLine)
    requires |block| > |BlockHeader| && block[..|BlockHeader|] == BlockHeader
    ensures ExtractSignedCode(text + block) == Some(RStrip(text))
  {
    var s := text + block;
    BlockFoundAfter(text, block);
    var p := |text| + 1;
    assert Contains(s, HeaderLine) by {
      OccurrenceFound(s, HeaderLine, p);
    }
    NewlineMarkerFound(s, SignatureMarker);
    assert ExtractSignedCode(s) == Some(RStrip(s[..p]));
    assert s[..p] == text + "\n";
    TrimEndAppend(text, "\n", Whitespace);
  }

  /**
   * As written, verifying finds the text that was hashed exactly when that
   * text does not end in whitespace; code signed for the first time keeps
   * its trailing newline in the digest but loses it on verification.
   */
  lemma SignAsWrittenVerifies(code: string, signer: string, time: string, hashHex: string, signature: string)
    ensures var g := SignAsWritten(code, signer, time, hashHex, signature);
      ExtractSignedCode(g.signed) == Some(g.hashed) <==> RStrip(g.hashed) == g.hashed
  {
    var g := SignAsWritten(code, signer, time, hashHex, signature);
    StrippedHasNoHeader(code);
    if !HasSignature(code) {
      assert StripSignature(code) == code;
    }
    VerifyRecoversStripped(g.hashed, SignatureBlock(signer, time, hashHex, signature));
  }

  /** The example file is too short to hold a header. */
  lemma ExampleUnsigned()
    ensures !HasSignature("print(1)\n") && !Contains("print(1)\n", HeaderLine)
  {
    var code := "print(1)\n";
    assert |code| < |LegacyMarker| < |SignatureMarker|;
    if Contains(code, SignatureMarker) || Contains(code, LegacyMarker) || Contains(code, HeaderLine) {
      assert false;
    }
  }

  /** Right-stripping the example drops its newline. */
  lemma ExampleStripped()
    ensures RStrip("print(1)\n") == "print(1)"
  {
    var line := "print(1)";
    assert "print(1)\n" == line + "\n";
    TrimEndAppend(line, "\n", Whitespace);
    assert line[|line| - 1] == ')';
  }

  /** A file that ends in a newline and has never been signed fails verification right after signing. */
  lemma SignAsWrittenMismatch(signer: string, time: string, hashHex: string, signature: string)
    ensures var g := SignAsWritten("print(1)\n", signer, time, hashHex, signature);
      g.hashed == "print(1)\n" && ExtractSignedCode(g.signed) == Some("print(1)")
  {
    ExampleUnsigned();
    ExampleStripped();
    VerifyRecoversStripped("print(1)\n", SignatureBlock(signer, time, hashHex, signature));
  }

  /** With the hashed text right-stripped, verifying always recovers exactly the text whose digest was signed. */
  lemma SignThenVerify(code: string, signer: string, time: string, hashHex: string, signature: string)
    ensures var g := Sign(code, signer, time, hashHex, signature);
      ExtractSignedCode(g.signed) == Some(g.hashed)
  {
    var g := Sign(code, signer, time, hashHex, signature);
    var stripped := StripSignature(code);
    StrippedHasNoHeader(code);
    TrimEndSpec(stripped, Whitespace);
    AbsentFromPrefix(stripped, HeaderLine, |g.hashed|);
    VerifyRecoversStripped(g.hashed, SignatureBlock(signer, time, hashHex, signature));
    TrimEndIdempotent(stripped, Whitespace);
  }

  /** Signing signed code again replaces the block and hashes the same text as before. */
  lemma ResignKeepsText(code: string, signer: string, time: string, hashHex: string, signature: string,
                        signer2: string, time2: string, hashHex2: string, signature2: string)
    ensures var g := Sign(code, signer, time, hashHex, signature);
      Sign(g.signed, signer2, time2, hashHex2, signature2).hashed == g.hashed
  {
    var g := Sign(code, signer, time, hashHex, signature);
    SignThenVerify(code, signer, time, hashHex, signature);
    TrimEndIdempotent(StripSignature(g.signed), Whitespace);
  }
}
