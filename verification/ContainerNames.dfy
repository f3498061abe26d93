/**
  Names of workspace resources: the container and its cache volume are named after the git root and
  the first digits of its hash. Lengths and slices are counted in UTF-8 bytes, as the program does.
*/
module ContainerNames {
  import opened Wrappers
  import opened Text

  const CONTAINER_PREFIX := "agentbox-"
  const GIT_ROOT_HASH_LEN: nat := 12
  const MAX_CONTAINER_NAME_LEN: nat := 63

  // ---------------------------------------------------------------- bytes of a string

  /** How many code points this many bytes can hold: seven bits, then eleven, then five more for each byte. */
  function Utf8Capacity(width: nat): nat {
    if width == 0 then 0 else if width == 1 then 0x80 else if width == 2 then 0x800
    else 32 * Utf8Capacity(width - 1)
  }

  /** The least number of bytes that can hold the character. */
  function Utf8Width(c: char): (width: nat)
    ensures 1 <= width <= 4
    ensures Utf8Capacity(width - 1) <= c as nat < Utf8Capacity(width)
  {
    if c < '\U{0080}' then 1 else if c < '\U{0800}' then 2 else if c < '\U{10000}' then 3 else 4
  }

  function ByteLength(s: string): nat {
    if s == [] then 0 else Utf8Width(s[0]) + ByteLength(s[1..])
  }

  /** The byte offset lies between two characters, or at an end. */
  predicate IsCharBoundary(s: string, offset: nat) {
    if offset == 0 then true
    else s != [] && Utf8Width(s[0]) <= offset && IsCharBoundary(s[1..], offset - Utf8Width(s[0]))
  }

  /** The slice from a byte offset, which panics in the program unless the offset is a boundary. */
  function FromByte(s: string, offset: nat): string
    requires IsCharBoundary(s, offset)
  {
    if offset == 0 then s else FromByte(s[1..], offset - Utf8Width(s[0]))
  }

  predicate IsAscii(s: string) {
    forall i :: 0 <= i < |s| ==> s[i] < '\U{0080}'
  }

  lemma {:induction false} AsciiBytesAreChars(s: string, offset: nat)
    requires IsAscii(s) && offset <= |s|
    ensures ByteLength(s) == |s|
    ensures IsCharBoundary(s, offset) && FromByte(s, offset) == s[offset..]
  {
    if s != [] {
      AsciiBytesAreChars(s[1..], if offset == 0 then 0 else offset - 1);
    }
  }

  // ---------------------------------------------------------------- names

  predicate IsAsciiAlphanumeric(c: char) {
    '0' <= c <= '9' || 'a' <= c <= 'z' || 'A' <= c <= 'Z'
  }

  predicate IsAsciiHexDigit(c: char) {
    '0' <= c <= '9' || 'a' <= c <= 'f' || 'A' <= c <= 'F'
  }

  /** The digits that a truncated lower-case hex digest has. */
  predicate IsHash12(hash: string) {
    |hash| == GIT_ROOT_HASH_LEN && forall i :: 0 <= i < |hash| ==> '0' <= hash[i] <= '9' || 'a' <= hash[i] <= 'f'
  }

  /** The characters that a container name may have. */
  predicate IsNameChar(c: char) {
    IsAsciiAlphanumeric(c) || c == '.' || c == '_' || c == '-'
  }

  function EscapeChar(c: char): char {
    if c == '/' then '_' else if IsNameChar(c) then c else '-'
  }

  function EscapeRoot(root: string): (escaped: string)
    ensures |escaped| == |root| && IsAscii(escaped)
    ensures forall i :: 0 <= i < |root| ==>
              escaped[i] == if root[i] == '/' then '_' else if IsNameChar(root[i]) then root[i] else '-'
  {
    seq(|root|, i requires 0 <= i < |root| => EscapeChar(root[i]))
  }

  /** `container_name_from_canonical_root_and_hash`; the slice needs a character boundary. */
  function ContainerName(root: string, hash: string): string
    requires IsHash12(hash)
  {
    var escaped := EscapeRoot(root);
    var separatorLen := 1 + ByteLength(hash);
    assert ByteLength(hash) == |hash| by {
      AsciiBytesAreChars(hash, 0);
    }
    var maxSuffixLen := MAX_CONTAINER_NAME_LEN - |CONTAINER_PREFIX| - separatorLen;
    var suffix :=
      if ByteLength(escaped) <= maxSuffixLen then escaped
      else
        assert IsCharBoundary(escaped, ByteLength(escaped) - maxSuffixLen) by {
          AsciiBytesAreChars(escaped, 0);
          AsciiBytesAreChars(escaped, |escaped| - maxSuffixLen);
        }
        FromByte(escaped, ByteLength(escaped) - maxSuffixLen);
    CONTAINER_PREFIX + suffix + "-" + hash
  }

  /** `is_agentbox_workspace_resource_name`: what `clean` takes for a cache volume of agentbox. */
  predicate IsWorkspaceResourceName(name: string) {
    match LastIndex(name, '-')
    case None => false
    case Some(dash) =>
      var prefix, suffix := name[..dash], name[dash + 1..];
      && CONTAINER_PREFIX <= prefix && |prefix| > |CONTAINER_PREFIX|
      && |suffix| == GIT_ROOT_HASH_LEN
      && forall i :: 0 <= i < |suffix| ==> IsAsciiHexDigit(suffix[i])
  }

  /** The readable part: at most the last 41 characters of the escaped root. */
  function NameTail(root: string): (tail: string)
    ensures |tail| <= 41 && IsAscii(tail) && (tail == [] <==> root == [])
  {
    var escaped := EscapeRoot(root);
    if |escaped| <= 41 then escaped else escaped[|escaped| - 41..]
  }

  lemma NameParts(root: string, hash: string)
    requires IsHash12(hash)
    ensures ContainerName(root, hash) == CONTAINER_PREFIX + NameTail(root) + "-" + hash
  {
    var escaped := EscapeRoot(root);
    AsciiBytesAreChars(escaped, 0);
    AsciiBytesAreChars(hash, 0);
    if |escaped| > 41 {
      AsciiBytesAreChars(escaped, |escaped| - 41);
    }
  }

  /** A name fits the limit of a host name, in characters and in bytes. */
  lemma NameFits(root: string, hash: string)
    requires IsHash12(hash)
    ensures |ContainerName(root, hash)| <= MAX_CONTAINER_NAME_LEN && IsAscii(ContainerName(root, hash))
    ensures ByteLength(ContainerName(root, hash)) == |ContainerName(root, hash)|
  {
    hide ContainerName, NameTail, ByteLength, IsAscii, IsHash12, IsCharBoundary, FromByte;
    NameParts(root, hash);
    HashIsAscii(hash);
    PunctuationIsAscii();
    AsciiConcat(CONTAINER_PREFIX, NameTail(root));
    AsciiConcat(CONTAINER_PREFIX + NameTail(root), "-");
    AsciiConcat(CONTAINER_PREFIX + NameTail(root) + "-", hash);
    AsciiBytesAreChars(ContainerName(root, hash), 0);
  }

  lemma PunctuationIsAscii()
    ensures IsAscii(CONTAINER_PREFIX) && IsAscii("-")
  {
  }

  lemma HashIsAscii(hash: string)
    requires IsHash12(hash)
    ensures IsAscii(hash) && |hash| == GIT_ROOT_HASH_LEN
  {
  }

  lemma AsciiConcat(a: string, b: string)
    requires IsAscii(a) && IsAscii(b)
    ensures IsAscii(a + b)
  {
  }

  lemma LastSeparator(front: string, sep: char, back: string)
    requires sep !in back
    ensures LastIndex(front + [sep] + back, sep) == Some(|front|)
  {
    hide LastIndex;
    var whole := front + [sep] + back;
    assert whole[|front|] == sep && whole[|front| + 1..] == back;
    var found := LastIndex(whole, sep).value;
    forall k | found < k < |whole| ensures whole[k] != sep {
      assert whole[k] == whole[found + 1..][k - found - 1];
    }
    forall k | |front| < k < |whole| ensures whole[k] != sep {
      assert whole[k] == back[k - |front| - 1];
    }
  }

  /** Splitting a name at its last dash gives the hash back. */
  lemma HashIsRecovered(root: string, hash: string)
    requires IsHash12(hash)
    ensures var name := ContainerName(root, hash);
            && |name| > GIT_ROOT_HASH_LEN
            && LastIndex(name, '-') == Some(|name| - GIT_ROOT_HASH_LEN - 1)
            && name[|name| - GIT_ROOT_HASH_LEN..] == hash
            && name[..|name| - GIT_ROOT_HASH_LEN - 1] == CONTAINER_PREFIX + NameTail(root)
  {
    NameParts(root, hash);
    hide ContainerName, NameTail, LastIndex;
    LastSeparator(CONTAINER_PREFIX + NameTail(root), '-', hash);
  }

  /** Two names are equal exactly if hash and readable part are; so different hashes keep names apart. */
  lemma NamesAreEqualIff(root: string, hash: string, otherRoot: string, otherHash: string)
    requires IsHash12(hash) && IsHash12(otherHash)
    ensures ContainerName(root, hash) == ContainerName(otherRoot, otherHash) <==>
              hash == otherHash && NameTail(root) == NameTail(otherRoot)
  {
    HashIsRecovered(root, hash);
    HashIsRecovered(otherRoot, otherHash);
    NameParts(root, hash);
    NameParts(otherRoot, otherHash);
    var a, b := CONTAINER_PREFIX + NameTail(root), CONTAINER_PREFIX + NameTail(otherRoot);
    assert a[|CONTAINER_PREFIX|..] == NameTail(root) && b[|CONTAINER_PREFIX|..] == NameTail(otherRoot);
  }

  const DIGITS := "0123456789"
  const LOWER_CASE := "abcdefghijklmnopqrstuvwxyz"
  const UPPER_CASE := "ABCDEFGHIJKLMNOPQRSTUVWXYZ"

  lemma DigitIff(c: char)
    ensures '0' <= c <= '9' <==> c in DIGITS
  {
    if '0' <= c <= '9' {
      assert DIGITS[c as int - '0' as int] == c;
    }
  }

  lemma LowerCaseIff(c: char)
    ensures 'a' <= c <= 'z' <==> c in LOWER_CASE
  {
    if 'a' <= c <= 'z' {
      assert LOWER_CASE[c as int - 'a' as int] == c;
    }
  }

  lemma UpperCaseIff(c: char)
    ensures 'A' <= c <= 'Z' <==> c in UPPER_CASE
  {
    if 'A' <= c <= 'Z' {
      assert UPPER_CASE[c as int - 'A' as int] == c;
    }
  }

  /** Escaping keeps ASCII letters, digits, dots, underscores and dashes, and nothing else. */
  lemma NameCharIff(c: char)
    ensures IsNameChar(c) <==> c in DIGITS || c in LOWER_CASE || c in UPPER_CASE || c in "._-"
  {
    DigitIff(c);
    LowerCaseIff(c);
    UpperCaseIff(c);
  }

  lemma HexDigitIff(c: char)
    ensures IsAsciiHexDigit(c) <==> c in DIGITS || c in "abcdef" || c in "ABCDEF"
  {
    DigitIff(c);
  }

  /** What `clean` takes for a cache volume: a prefix, something readable, a dash and twelve hex digits. */
  lemma WorkspaceResourceNameIff(name: string)
    ensures IsWorkspaceResourceName(name) <==>
              exists tail, hash ::
                && name == "agentbox-" + tail + "-" + hash && tail != "" && |hash| == 12
                && forall i :: 0 <= i < |hash| ==> IsAsciiHexDigit(hash[i])
  {
    hide LastIndex;
    if IsWorkspaceResourceName(name) {
      var dash := LastIndex(name, '-').value;
      var tail, hash := name[|CONTAINER_PREFIX|..dash], name[dash + 1..];
      assert name == name[..dash] + "-" + hash && name[..dash] == "agentbox-" + tail;
    }
    if tail, hash :| name == "agentbox-" + tail + "-" + hash && tail != "" && |hash| == 12
                     && forall i :: 0 <= i < |hash| ==> IsAsciiHexDigit(hash[i]) {
      LastSeparator("agentbox-" + tail, '-', hash);
    }
  }

  /** The filter of `clean` accepts exactly the names of non-empty roots. */
  lemma NamePassesFilterIff(root: string, hash: string)
    requires IsHash12(hash)
    ensures IsWorkspaceResourceName(ContainerName(root, hash)) <==> root != []
  {
    HashIsRecovered(root, hash);
    assert CONTAINER_PREFIX <= CONTAINER_PREFIX + NameTail(root);
  }
}
