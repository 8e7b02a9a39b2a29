/** Reading one line of an authorized_keys text: a key is known by its base 64 body,
    whatever its options and comment. */
module AuthKeys {
  import opened Text
  import opened Base64

  const KEY_TYPES: set<string> := {
    "ssh-rsa", "ssh-dss", "ssh-ed25519",
    "ecdsa-sha2-nistp256", "ecdsa-sha2-nistp384", "ecdsa-sha2-nistp521",
    "sk-ssh-ed25519@openssh.com", "sk-ecdsa-sha2-nistp256@openssh.com" }

  // One line.

  function BigEndian(b: seq<Byte>): nat
    requires |b| == 4
  {
    var high: nat, mid: nat, low: nat := b[0], b[1], b[2];
    16777216 * high + 65536 * mid + 256 * low + b[3]
  }

  function Ascii(b: seq<Byte>): string
    requires forall i :: 0 <= i < |b| ==> b[i] < 128
  {
    seq(|b|, i requires 0 <= i < |b| => b[i] as char)
  }

  /** The type a wire-format key names, or "": a length of four bytes, then that many
      ASCII characters. */
  function WireType(body: string): string {
    if |body| < 20 then ""
    else match DecodePadded(body)
      case None => ""
      case Some(blob) =>
        if |blob| < 4 then ""
        else
          var n := BigEndian(blob[..4]);
          if n == 0 || n + 4 > |blob| then ""
          else if exists i :: 4 <= i < n + 4 && blob[i] > 127 then ""
          else Ascii(blob[4..n + 4])
  }

  datatype KeyLine = KeyLine(options: string, keyType: string, body: string, comment: string)

  function FirstType(tokens: seq<string>): (i: nat)
    ensures i <= |tokens| && (i < |tokens| ==> tokens[i] in KEY_TYPES)
  {
    if tokens == [] || tokens[0] in KEY_TYPES then 0 else 1 + FirstType(tokens[1..])
  }

  function SplitKeyLine(line: string): Option<KeyLine> {
    var stripped := Trim(line);
    if stripped == "" || stripped[0] == '#' then None
    else
      var tokens := Fields(stripped);
      var i := FirstType(tokens);
      if i + 1 >= |tokens| || WireType(tokens[i + 1]) != tokens[i] then None
      else Some(KeyLine(Join(tokens[..i], " "), tokens[i], tokens[i + 1], Join(tokens[i + 2..], " ")))
  }

  /** A key's identity, or "" for a line that is no key. */
  function KeyBody(line: string): string {
    match SplitKeyLine(line) case None => "" case Some(k) => k.body
  }

  predicate IsKey(line: string) { SplitKeyLine(line).Some? }

  /** Space around a line is not looked at. */
  lemma BodyOfTrimmed(line: string)
    ensures KeyBody(Trim(line)) == KeyBody(line)
  {
    TrimTwice(line);
  }

  lemma KeysHaveBodies(line: string)
    ensures IsKey(line) <==> KeyBody(line) != ""
  {
  }

  // A key as it is on the wire is one that is found in a line.

  /** A number below 2^32 in four bytes, the highest first. */
  function FourBytes(n: nat): (b: seq<Byte>)
    requires n < 0x1_0000_0000
    ensures |b| == 4
  {
    [n / 0x100_0000, n / 0x1_0000 % 0x100, n / 0x100 % 0x100, n % 0x100]
  }

  lemma FourBytesRead(n: nat)
    requires n < 0x1_0000_0000
    ensures BigEndian(FourBytes(n)) == n
  {
    assert n == n / 0x100 * 0x100 + n % 0x100;
    assert n / 0x100 == n / 0x1_0000 * 0x100 + n / 0x100 % 0x100;
    assert n / 0x1_0000 == n / 0x100_0000 * 0x100 + n / 0x1_0000 % 0x100;
  }

  predicate Ascii7(s: string) { forall i :: 0 <= i < |s| ==> s[i] as int < 128 }

  function Wire(keyType: string): (b: seq<Byte>)
    requires |keyType| < 0x1_0000_0000 && Ascii7(keyType)
    ensures |b| == 4 + |keyType|
  {
    FourBytes(|keyType|) + seq(|keyType|, i requires 0 <= i < |keyType| => keyType[i] as nat)
  }

  /** The type a wire-format key starts with (section 6.6 of RFC 4253) is read back from
      its base 64 text, unless that text is shorter than any key's. */
  lemma WireTypeOfKey(keyType: string, rest: seq<Byte>)
    requires 0 < |keyType| < 0x1_0000_0000 && Ascii7(keyType)
    ensures var body := EncodePadded(Wire(keyType) + rest);
            WireType(body) == if |body| < 20 then "" else keyType
  {
    PaddedRoundTrip(Wire(keyType) + rest);
    WireStart(keyType, rest);
  }

  lemma WireStart(keyType: string, rest: seq<Byte>)
    requires 0 < |keyType| < 0x1_0000_0000 && Ascii7(keyType)
    ensures var blob, n := Wire(keyType) + rest, |keyType|;
            && BigEndian(blob[..4]) == n && n + 4 <= |blob|
            && (forall i :: 4 <= i < n + 4 ==> blob[i] < 128) && Ascii(blob[4..n + 4]) == keyType
  {
    var blob := Wire(keyType) + rest;
    FourBytesRead(|keyType|);
    assert blob[..4] == FourBytes(|keyType|);
    assert forall i :: 4 <= i < |keyType| + 4 ==> blob[i] == keyType[i - 4] as nat;
  }

  lemma FourBytesOf(b: seq<Byte>)
    requires |b| == 4
    ensures BigEndian(b) < 0x1_0000_0000 && FourBytes(BigEndian(b)) == b
  {
    var n: nat, high: nat, mid: nat, low: nat, last: nat := BigEndian(b), b[0], b[1], b[2], b[3];
    assert n == 0x100 * (0x1_0000 * high + 0x100 * mid + low) + last;
    assert n / 0x100 == 0x1_0000 * high + 0x100 * mid + low && n % 0x100 == last;
    assert n / 0x1_0000 == 0x100 * high + mid && n / 0x100_0000 == high;
  }

  lemma WireOfAscii(b: seq<Byte>)
    requires |b| < 0x1_0000_0000 && forall i :: 0 <= i < |b| ==> b[i] < 128
    ensures Ascii7(Ascii(b)) && Wire(Ascii(b)) == FourBytes(|b|) + b
  {
    var t := Ascii(b);
    forall i | 0 <= i < |b| ensures t[i] as nat == b[i] { }
    assert seq(|t|, i requires 0 <= i < |t| => t[i] as nat) == b;
  }

  /** A body has a type only if it is the base 64 text of a key of that type. */
  lemma TypedIsWire(body: string)
    requires WireType(body) != ""
    ensures var t := WireType(body);
            && |body| >= 20 && |t| < 0x1_0000_0000 && Ascii7(t) && DecodePadded(body).Some? && Wire(t) <= DecodePadded(body).value
  {
    var blob := DecodePadded(body).value;
    var n := BigEndian(blob[..4]);
    FourBytesOf(blob[..4]);
    WireOfAscii(blob[4..n + 4]);
    assert blob[..4] + blob[4..n + 4] == blob[..n + 4];
  }

  // A line is read as what it was written from.

  predicate NoType(words: seq<string>) { forall w :: w in words ==> w !in KEY_TYPES }

  lemma {:induction false} FirstTypeAfter(words: seq<string>, more: seq<string>)
    requires NoType(words) && more != [] && more[0] in KEY_TYPES
    ensures FirstType(words + more) == |words|
  {
    if words == [] {
      assert words + more == more;
    } else {
      assert (words + more)[1..] == words[1..] + more;
      FirstTypeAfter(words[1..], more);
    }
  }

  lemma {:induction false} JoinedEnds(words: seq<string>)
    requires Words(words) && words != []
    ensures var s := Join(words, " ");
            s != "" && s[0] == words[0][0] && !IsSpace(s[|s| - 1])
  {
    if |words| > 1 { JoinedEnds(words[1..]); }
  }

  /** Options that name no key type, the type, a body of that type and a comment, with a
      space between words, are read as just those. */
  lemma LineReadsBack(options: seq<string>, keyType: string, body: string, comment: seq<string>)
    requires Words(options + [keyType, body] + comment) && NoType(options) && keyType in KEY_TYPES && WireType(body) == keyType
    requires options == [] || options[0] == "" || options[0][0] != '#'
    ensures SplitKeyLine(Join(options + [keyType, body] + comment, " ")) ==
            Some(KeyLine(Join(options, " "), keyType, body, Join(comment, " ")))
  {
    var words := options + [keyType, body] + comment;
    var line := Join(words, " ");
    JoinedEnds(words);
    TypeStart(keyType);
    assert words[0] == if options == [] then keyType else options[0];
    TrimmedAlready(line);
    FieldsOfJoin(words);
    TypeIn(options, keyType, body, comment);
  }

  lemma TypeIn(options: seq<string>, keyType: string, body: string, comment: seq<string>)
    requires NoType(options) && keyType in KEY_TYPES
    ensures var words, i := options + [keyType, body] + comment, |options|;
            && FirstType(words) == i && i + 1 < |words| && words[i] == keyType && words[i + 1] == body
            && words[..i] == options && words[i + 2..] == comment
  {
    var words := options + [keyType, body] + comment;
    assert words == options + ([keyType, body] + comment);
    FirstTypeAfter(options, [keyType, body] + comment);
  }

  lemma TypeStart(keyType: string)
    requires keyType in KEY_TYPES
    ensures keyType != "" && keyType[0] != '#'
  {
  }

  lemma TrimmedAlready(line: string)
    requires line != "" && !IsSpace(line[0]) && !IsSpace(line[|line| - 1])
    ensures Trim(line) == line
  {
  }

  /** A line that is read is some words with a body of the type before it, and nothing is
      read from an empty line or one that starts with a hash. */
  lemma LineIsKey(line: string)
    ensures Trim(line) == "" || Trim(line)[0] == '#' ==> !IsKey(line)
    ensures IsKey(line) ==>
              var k := SplitKeyLine(line).value;
              && k.keyType in KEY_TYPES && WireType(k.body) == k.keyType
              && exists i :: 0 <= i < |Fields(Trim(line))| - 1 && NoType(Fields(Trim(line))[..i])
                             && Fields(Trim(line))[i] == k.keyType && Fields(Trim(line))[i + 1] == k.body
  {
    if IsKey(line) {
      var tokens := Fields(Trim(line));
      var i := FirstType(tokens);
      FirstTypeFirst(tokens);
      assert tokens[i] == SplitKeyLine(line).value.keyType && tokens[i + 1] == SplitKeyLine(line).value.body;
    }
  }

  lemma {:induction false} FirstTypeFirst(tokens: seq<string>)
    ensures NoType(tokens[..FirstType(tokens)])
  {
    if tokens != [] && tokens[0] !in KEY_TYPES {
      FirstTypeFirst(tokens[1..]);
      var n := FirstType(tokens);
      assert tokens[..n] == [tokens[0]] + tokens[1..][..n - 1];
    }
  }
}
