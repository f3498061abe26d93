/**
  Default runtime images: the bytes that the hash of an image context is taken over, and the image
  references that carry such a hash as their tag. SHA-256 is a parameter.
*/
module ImageContext {
  import opened Wrappers
  import opened Text
  import opened Runtimes
  import opened ContainerNames

  const IMAGE_CONTEXT_HASH_LEN: nat := 16

  /** A file of the context: its relative path and its contents, as bytes. */
  datatype ContextFile = ContextFile(path: seq<byte>, contents: seq<byte>)

  // ---------------------------------------------------------------- the bytes that are hashed

  function AsciiBytes(s: string): (bytes: seq<byte>)
    requires IsAscii(s)
    ensures |bytes| == |s|
  {
    seq(|s|, i requires 0 <= i < |s| => s[i] as int as byte)
  }

  function LengthBytes(n: nat): seq<byte> {
    AsciiBytes(Decimal(n))
  }

  function Framed(file: ContextFile): seq<byte> {
    file.path + [0] + LengthBytes(|file.contents|) + [0] + file.contents + [0]
  }

  function Preimage(files: seq<ContextFile>): seq<byte> {
    if files == [] then [] else Framed(files[0]) + Preimage(files[1..])
  }

  class Sha256Hasher {
    var fed: seq<byte>

    constructor ()
      ensures fed == []
    {
      fed := [];
    }

    method Update(bytes: seq<byte>)
      modifies this
      ensures fed == old(fed) + bytes
    {
      fed := fed + bytes;
    }
  }

  type Digest = d: seq<byte> | |d| == 32 witness seq(32, i => 0)

  function HexDigit(nibble: nat): (c: char)
    requires nibble < 16
    ensures '0' <= c <= '9' || 'a' <= c <= 'f'
  {
    "0123456789abcdef"[nibble]
  }

  function HexLower(bytes: seq<byte>): (s: string)
    ensures |s| == 2 * |bytes|
    ensures forall i :: 0 <= i < |s| ==> '0' <= s[i] <= '9' || 'a' <= s[i] <= 'f'
  {
    if bytes == [] then ""
    else [HexDigit(bytes[0] as int / 16), HexDigit(bytes[0] as int % 16)] + HexLower(bytes[1..])
  }

  /** The value of a lower-case hex digit. */
  function HexValue(c: char): nat
    requires '0' <= c <= '9' || 'a' <= c <= 'f'
  {
    if c <= '9' then c as nat - '0' as nat else c as nat - 'a' as nat + 10
  }

  /** Two digits for each byte, the high one first. */
  lemma {:induction false} HexLowerAt(bytes: seq<byte>, i: nat)
    requires i < |bytes|
    ensures HexValue(HexLower(bytes)[2 * i]) * 16 + HexValue(HexLower(bytes)[2 * i + 1]) == bytes[i] as nat
  {
    hide HexValue, HexDigit, HexLower;
    if i == 0 {
      HexOfFirst(bytes);
    } else {
      HexLowerAt(bytes[1..], i - 1);
      HexOfRest(bytes, 2 * i);
      HexOfRest(bytes, 2 * i + 1);
      assert bytes[1..][i - 1] == bytes[i];
    }
  }

  lemma HexOfFirst(bytes: seq<byte>)
    requires bytes != []
    ensures HexValue(HexLower(bytes)[0]) * 16 + HexValue(HexLower(bytes)[1]) == bytes[0] as nat
  {
    hide HexValue, HexDigit;
    var b := bytes[0] as nat;
    HexDigitValue(b / 16);
    HexDigitValue(b % 16);
  }

  lemma HexOfRest(bytes: seq<byte>, k: nat)
    requires bytes != [] && 2 <= k < 2 * |bytes|
    ensures HexLower(bytes)[k] == HexLower(bytes[1..])[k - 2]
  {
    hide HexDigit;
  }

  /** The first digits of a hex digest are the hash of a git root. */
  lemma DigestPrefixIsHash12(digest: Digest)
    ensures IsHash12(HexLower(digest)[..GIT_ROOT_HASH_LEN])
    ensures IsContextHash(HexLower(digest)[..IMAGE_CONTEXT_HASH_LEN])
  {
    hide HexLower;
  }

  lemma HexDigitValue(nibble: nat)
    requires nibble < 16
    ensures HexValue(HexDigit(nibble)) == nibble
  {
  }

  lemma {:induction false} PreimageOfOneMore(files: seq<ContextFile>, file: ContextFile)
    ensures Preimage(files + [file]) == Preimage(files) + Framed(file)
  {
    if files == [] {
      assert Preimage([file]) == Framed(file) + Preimage([]);
    } else {
      PreimageOfOneMore(files[1..], file);
      assert (files + [file])[1..] == files[1..] + [file];
    }
  }

  lemma NothingIsHashedForNoFiles()
    ensures Preimage([]) == []
  {
  }

  lemma FramedPieces(before: seq<byte>, file: ContextFile)
    ensures before + file.path + [0] + LengthBytes(|file.contents|) + [0] + file.contents + [0] == before + Framed(file)
  {
  }

  /** `image_context_hash`: the hasher is fed piece by piece, file by file. */
  method ImageContextHash(files: seq<ContextFile>, sha256: seq<byte> -> Digest) returns (hash: string)
    ensures hash == HexLower(sha256(Preimage(files)))[..IMAGE_CONTEXT_HASH_LEN]
    ensures IsContextHash(hash)
  {
    hide Framed, Preimage, LengthBytes, HexLower;
    assert Preimage([]) == [] by {
      NothingIsHashedForNoFiles();
    }
    var hasher := new Sha256Hasher();
    for i := 0 to |files|
      invariant hasher.fed == Preimage(files[..i])
    {
      ghost var before := hasher.fed;
      hasher.Update(files[i].path);
      hasher.Update([0]);
      hasher.Update(LengthBytes(|files[i].contents|));
      hasher.Update([0]);
      hasher.Update(files[i].contents);
      hasher.Update([0]);
      FramedPieces(before, files[i]);
      PreimageOfOneMore(files[..i], files[i]);
      assert files[..i + 1] == files[..i] + [files[i]];
    }
    assert files[..|files|] == files;
    hash := HexLower(sha256(hasher.fed))[..IMAGE_CONTEXT_HASH_LEN];
  }

  // ---------------------------------------------------------------- the bytes determine the files

  function FirstNul(bytes: seq<byte>): (r: Option<nat>)
    ensures r.None? ==> 0 !in bytes
    ensures r.Some? ==> r.value < |bytes| && bytes[r.value] == 0 && 0 !in bytes[..r.value]
  {
    if bytes == [] then None
    else if bytes[0] == 0 then Some(0)
    else match FirstNul(bytes[1..])
      case None => None
      case Some(i) =>
        assert bytes[..i + 1] == [bytes[0]] + bytes[1..][..i];
        Some(i + 1)
  }

  /** The bytes up to the first NUL, and those after it. */
  function Field(bytes: seq<byte>): (r: Option<(seq<byte>, seq<byte>)>)
    ensures r.Some? ==> |r.value.1| < |bytes|
  {
    match FirstNul(bytes) case None => None case Some(i) => Some((bytes[..i], bytes[i + 1..]))
  }

  function LengthOf(digits: seq<byte>): Option<nat> {
    if exists i :: 0 <= i < |digits| && !IsDigit(digits[i] as int as char) then None
    else Some(DigitsValue(seq(|digits|, i requires 0 <= i < |digits| => digits[i] as int as char)))
  }

  /** The first file of the bytes, and the bytes after it. */
  function DecodeFile(bytes: seq<byte>): (r: Option<(ContextFile, seq<byte>)>)
    ensures r.Some? ==> |r.value.1| < |bytes|
  {
    match Field(bytes)
    case None => None
    case Some((path, afterPath)) =>
      match Field(afterPath)
      case None => None
      case Some((digits, afterLength)) =>
        match LengthOf(digits)
        case None => None
        case Some(n) =>
          if n >= |afterLength| || afterLength[n] != 0 then None
          else Some((ContextFile(path, afterLength[..n]), afterLength[n + 1..]))
  }

  function Decode(bytes: seq<byte>): Option<seq<ContextFile>>
    decreases |bytes|
  {
    if bytes == [] then Some([])
    else match DecodeFile(bytes)
      case None => None
      case Some((file, rest)) =>
        match Decode(rest) case None => None case Some(files) => Some([file] + files)
  }

  lemma FieldOf(field: seq<byte>, rest: seq<byte>)
    requires 0 !in field
    ensures Field(field + [0] + rest) == Some((field, rest))
  {
    var bytes := field + [0] + rest;
    assert bytes[|field|] == 0;
    var i := FirstNul(bytes).value;
    forall k | 0 <= k < |field| ensures bytes[k] != 0 {
      assert bytes[k] == field[k];
    }
    forall k | 0 <= k < i ensures bytes[k] != 0 {
      assert bytes[k] == bytes[..i][k];
    }
    assert bytes[..|field|] == field && bytes[|field| + 1..] == rest;
  }

  lemma LengthRoundTrip(n: nat)
    ensures 0 !in LengthBytes(n) && LengthOf(LengthBytes(n)) == Some(n)
  {
    var s, digits := Decimal(n), LengthBytes(n);
    assert forall i :: 0 <= i < |digits| ==> digits[i] as int as char == s[i];
    assert seq(|digits|, i requires 0 <= i < |digits| => digits[i] as int as char) == s;
    DecimalValue(n);
  }

  lemma DecodeFramed(file: ContextFile, rest: seq<byte>)
    requires 0 !in file.path
    ensures DecodeFile(Framed(file) + rest) == Some((file, rest))
  {
    var n := |file.contents|;
    var afterLength := file.contents + [0] + rest;
    var afterPath := LengthBytes(n) + [0] + afterLength;
    assert Framed(file) + rest == file.path + [0] + afterPath;
    LengthRoundTrip(n);
    hide Field, LengthOf, LengthBytes;
    FieldOf(file.path, afterPath);
    FieldOf(LengthBytes(n), afterLength);
    assert afterLength[..n] == file.contents && afterLength[n + 1..] == rest;
  }

  predicate PathsHaveNoNul(files: seq<ContextFile>) {
    forall i :: 0 <= i < |files| ==> 0 !in files[i].path
  }

  lemma DecodeOneMore(file: ContextFile, rest: seq<byte>, files: seq<ContextFile>)
    requires 0 !in file.path && Decode(rest) == Some(files)
    ensures Decode(Framed(file) + rest) == Some([file] + files)
  {
    hide DecodeFile;
    DecodeFramed(file, rest);
    assert |Framed(file)| > 0;
    hide Framed;
  }

  /** The stream that is hashed decodes to the files it was made of. */
  lemma {:induction false} PreimageRoundTrip(files: seq<ContextFile>)
    requires PathsHaveNoNul(files)
    ensures Decode(Preimage(files)) == Some(files)
  {
    hide Framed, DecodeFile;
    if files != [] {
      PreimageRoundTrip(files[1..]);
      DecodeOneMore(files[0], Preimage(files[1..]), files[1..]);
      assert [files[0]] + files[1..] == files;
    }
  }

  /** Different file lists never feed the same bytes to the hasher. */
  lemma PreimageIsInjective(files: seq<ContextFile>, others: seq<ContextFile>)
    requires PathsHaveNoNul(files) && PathsHaveNoNul(others)
    requires Preimage(files) == Preimage(others)
    ensures files == others
  {
    PreimageRoundTrip(files);
    PreimageRoundTrip(others);
  }

  /** A NUL in a path does break it: one file can then pass for two. */
  lemma NulInPathCollides()
    ensures var two := [ContextFile([97], []), ContextFile([98], [])];
            var one := [ContextFile([97, 0, 48, 0, 0, 98], [])];
            two != one && Preimage(two) == Preimage(one)
  {
    var two := [ContextFile([97], []), ContextFile([98], [])];
    var one := [ContextFile([97, 0, 48, 0, 0, 98], [])];
    assert LengthBytes(0) == [48];
    assert Preimage(two[1..]) == Framed(two[1]);
    assert Preimage(one) == Framed(one[0]);
    assert Framed(two[0]) + Framed(two[1]) == Framed(one[0]);
  }

  // ---------------------------------------------------------------- image references

  /** `is_default_image_context_hash` */
  predicate IsContextHash(value: string) {
    |value| == IMAGE_CONTEXT_HASH_LEN && forall i :: 0 <= i < |value| ==> IsAsciiHexDigit(value[i])
  }

  lemma ContextHashIff(value: string)
    ensures IsContextHash(value) <==>
              |value| == 16 && forall c :: c in value ==> c in DIGITS || c in "abcdef" || c in "ABCDEF"
  {
    forall c | c in value ensures IsAsciiHexDigit(c) <==> c in DIGITS || c in "abcdef" || c in "ABCDEF" {
      HexDigitIff(c);
    }
    hide IsAsciiHexDigit;
    assert forall i :: 0 <= i < |value| ==> value[i] in value;
  }

  function ReferencePrefix(runtime: RuntimeKind): string {
    "localhost/agentbox-" + RuntimeName(runtime) + ":ctx-"
  }

  /** `default_image`: the reference of the image for this build of agentbox. */
  function DefaultImage(runtime: RuntimeKind, contextHash: string): string {
    ReferencePrefix(runtime) + contextHash
  }

  /** `is_content_hash_default_image_ref` */
  predicate IsContentHashReference(runtime: RuntimeKind, image: string) {
    ReferencePrefix(runtime) <= image && IsContextHash(image[|ReferencePrefix(runtime)|..])
  }

  /** A reference is read as the repository of the runtime and a tag with the hash. */
  lemma DefaultImageParts(runtime: RuntimeKind, contextHash: string)
    requires IsContextHash(contextHash)
    ensures Split(DefaultImage(runtime, contextHash), ':') ==
            [if runtime == Codex then "localhost/agentbox-codex" else "localhost/agentbox-opencode",
             "ctx-" + contextHash]
  {
    var repository := if runtime == Codex then "localhost/agentbox-codex" else "localhost/agentbox-opencode";
    var tag := "ctx-" + contextHash;
    assert DefaultImage(runtime, contextHash) == repository + [':'] + tag;
    assert ':' !in contextHash;
    assert ':' !in tag && ':' !in repository;
    hide DefaultImage, Split;
    SplitOfPartThen(repository, tag, ':');
    SplitOfPart(tag, ':');
  }

  /** A reference belongs to one runtime only, so that the default image of one is never that of another. */
  lemma ReferencesAreDisjoint(runtime: RuntimeKind, other: RuntimeKind, image: string)
    requires ReferencePrefix(runtime) <= image && ReferencePrefix(other) <= image
    ensures runtime == other
  {
    var at := |"localhost/agentbox-"|;
    assert image[at] == ReferencePrefix(runtime)[at] == RuntimeName(runtime)[0];
    assert image[at] == ReferencePrefix(other)[at] == RuntimeName(other)[0];
  }

  lemma DefaultImageIsReference(runtime: RuntimeKind, contextHash: string)
    ensures IsContentHashReference(runtime, DefaultImage(runtime, contextHash)) <==> IsContextHash(contextHash)
  {
    assert DefaultImage(runtime, contextHash)[|ReferencePrefix(runtime)|..] == contextHash;
  }
}
