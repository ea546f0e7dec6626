/** The framing of encrypted backups, over an ideal authenticated cipher. */
module EncryptedBackup {
  import opened Decimals
  import opened Prelude

  type Byte = x: int | 0 <= x < 256

  type Bytes = seq<Byte>

  const MAGIC: string := "RAGBACKUP1"
  const BLOCK_SIZE: nat := 1024 * 1024
  const TAG_SIZE: nat := 16
  const COUNTERS: nat := 0x1_0000_0000

  predicate IsAscii(s: string) {
    forall i :: 0 <= i < |s| ==> s[i] as int < 128
  }

  function Ascii(s: string): (b: Bytes)
    requires IsAscii(s)
    ensures |b| == |s|
  {
    seq(|s|, i requires 0 <= i < |s| => s[i] as int)
  }

  /** struct.pack("!I", n) */
  function U32(n: nat): (b: Bytes)
    requires n < COUNTERS
    ensures |b| == 4
  {
    var high, low := n / 0x1_0000, n % 0x1_0000;
    [high / 0x100, high % 0x100, low / 0x100, low % 0x100]
  }

  function Pair256(high: int, low: int): int { 0x100 * high + low }

  /** struct.unpack("!I", b) */
  function FromU32(b: Bytes): (n: nat)
    requires |b| == 4
    ensures n < COUNTERS
  {
    0x1_0000 * Pair256(b[0], b[1]) + Pair256(b[2], b[3])
  }

  lemma PairRoundTrip(n: nat)
    requires n < 0x1_0000
    ensures Pair256(n / 0x100, n % 0x100) == n && 0 <= n / 0x100 < 0x100
  {
  }

  lemma U32RoundTrip(n: nat)
    requires n < COUNTERS
    ensures FromU32(U32(n)) == n
  {
    PairRoundTrip(n / 0x1_0000);
    PairRoundTrip(n % 0x1_0000);
  }

  lemma PairSplits(high: Byte, low: Byte)
    ensures Pair256(high, low) / 0x100 == high && Pair256(high, low) % 0x100 == low && Pair256(high, low) < 0x1_0000
  {
  }

  lemma FromU32RoundTrip(b: Bytes)
    requires |b| == 4
    ensures U32(FromU32(b)) == b
  {
    hide Pair256;
    var high, low := Pair256(b[0], b[1]), Pair256(b[2], b[3]);
    PairSplits(b[0], b[1]);
    PairSplits(b[2], b[3]);
    assert FromU32(b) / 0x1_0000 == high && FromU32(b) % 0x1_0000 == low;
  }

  // ---------------------------------------------------------------- the cipher

  /** A sealed message: a plaintext bound to a nonce and to associated data. */
  datatype Message = Message(nonce: Bytes, data: Bytes, plain: Bytes)

  datatype Cipher = Cipher(seal: Message -> Bytes, open: (Bytes, Bytes, Bytes) -> Option<Bytes>)

  // ---------------------------------------------------------------- the manifest

  datatype Manifest = Manifest(bytes: nat, sha256: string, blocks: nat)

  /** The digest as 64 hexadecimal digits, and the JSON reader. */
  datatype Formats = Formats(digest: Bytes -> string, load: Bytes -> Option<Manifest>)

  function ManifestText(m: Manifest): string {
    "{\"bytes\": " + Decimal(m.bytes) + ", \"sha256\": \"" + m.sha256 + "\", \"blocks\": " + Decimal(m.blocks) + "}"
  }

  predicate IsHex(s: string) {
    |s| == 64 && forall i :: 0 <= i < |s| ==> s[i] in "0123456789abcdef"
  }

  /** What is used of SHA-256 and of json.loads: digests are hexadecimal, and a manifest written with one can be read. */
  ghost predicate ValidFormats(f: Formats) {
    && (forall b: Bytes :: IsHex(f.digest(b)))
    && (forall m: Manifest :: IsHex(m.sha256) && IsAscii(ManifestText(m)) ==> f.load(Ascii(ManifestText(m))) == Some(m))
  }

  lemma {:induction false} DecimalAscii(n: nat)
    ensures IsAscii(Decimal(n))
  {
    forall i | 0 <= i < |Decimal(n)| ensures Decimal(n)[i] as int < 128 {
      assert Decimal(n)[i] in Decimal(n);
    }
  }

  lemma HexAscii()
    ensures IsAscii("0123456789abcdef")
  {
  }

  lemma ManifestAscii(m: Manifest)
    requires IsHex(m.sha256)
    ensures IsAscii(ManifestText(m))
  {
    DecimalAscii(m.bytes);
    DecimalAscii(m.blocks);
    HexAscii();
    forall i | 0 <= i < |m.sha256| ensures m.sha256[i] as int < 128 {
      assert m.sha256[i] in "0123456789abcdef";
    }
  }

  /** The manifest of any source below the block counter fits the size the reader accepts. */
  lemma ManifestFits(m: Manifest)
    requires IsHex(m.sha256) && m.blocks < COUNTERS && m.bytes <= COUNTERS * BLOCK_SIZE
    ensures |ManifestText(m)| + TAG_SIZE <= 1024
  {
    assert TenTo(10) == 100000 * TenTo(5) == 10000000000;
    assert TenTo(16) == 1000000 * TenTo(10);
    DecimalLength(m.bytes, 16);
    DecimalLength(m.blocks, 10);
  }

  // ---------------------------------------------------------------- writing

  /** The blocks that reading the source in turn gives. */
  function BlocksOf(source: Bytes): (blocks: seq<Bytes>)
    ensures forall k :: 0 <= k < |blocks| ==> 0 < |blocks[k]| <= BLOCK_SIZE
  {
    if source == [] then []
    else if |source| <= BLOCK_SIZE then [source]
    else [source[..BLOCK_SIZE]] + BlocksOf(source[BLOCK_SIZE..])
  }

  function Flatten(blocks: seq<Bytes>): Bytes {
    if blocks == [] then [] else blocks[0] + Flatten(blocks[1..])
  }

  lemma {:induction false} BlocksPartition(source: Bytes)
    ensures Flatten(BlocksOf(source)) == source
  {
    if |source| > BLOCK_SIZE {
      BlocksPartition(source[BLOCK_SIZE..]);
      assert source == source[..BLOCK_SIZE] + source[BLOCK_SIZE..];
    } else if source != [] {
      assert Flatten([source]) == source + Flatten([]) == source;
    }
  }

  /** A backup as it is written: eight random bytes, the blocks and the manifest. */
  datatype Backup = Backup(cipher: Cipher, prefix: Bytes, blocks: seq<Bytes>, manifest: Manifest)
  {
    predicate Valid() {
      && |prefix| == 8 && |blocks| < COUNTERS
      && (forall k :: 0 <= k < |blocks| ==> 0 < |blocks[k]| <= BLOCK_SIZE)
      && IsHex(manifest.sha256) && IsAscii(ManifestText(manifest)) && |ManifestText(manifest)| + TAG_SIZE <= 1024
    }

    /** The message of block k, or of the manifest after the last block. */
    function MessageAt(k: nat): Message
      requires Valid() && k <= |blocks|
    {
      if k < |blocks| then Message(prefix + U32(k), Header(prefix) + Ascii("data"), blocks[k])
      else Message(prefix + U32(k), Header(prefix) + Ascii("end"), Ascii(ManifestText(manifest)))
    }

    function Sealed(k: nat): Bytes
      requires Valid() && k <= |blocks|
    {
      cipher.seal(MessageAt(k))
    }

    ghost predicate Sized() {
      forall m: Message :: |cipher.seal(m)| == |m.plain| + TAG_SIZE
    }

    lemma SealedSize(k: nat)
      requires Valid() && Sized() && k <= |blocks|
      ensures TAG_SIZE <= |Sealed(k)| < COUNTERS
      ensures k < |blocks| ==> TAG_SIZE < |Sealed(k)| <= BLOCK_SIZE + TAG_SIZE
      ensures k == |blocks| ==> |Sealed(k)| <= 1024
    {
    }

    /** What is written from block k on. */
    ghost function Tail(k: nat): Bytes
      requires Valid() && Sized() && k <= |blocks|
      decreases |blocks| - k
    {
      SealedSize(k);
      if k == |blocks| then U32(0) + (U32(|Sealed(k)|) + Sealed(k))
      else U32(|Sealed(k)|) + Sealed(k) + Tail(k + 1)
    }

    ghost function File(): Bytes
      requires Valid() && Sized()
    {
      Header(prefix) + Tail(0)
    }
  }

  function Header(prefix: Bytes): (h: Bytes)
    ensures |h| == 10 + |prefix|
  {
    Ascii(MAGIC) + prefix
  }

  function BackupOf(cipher: Cipher, f: Formats, prefix: Bytes, source: Bytes): Backup {
    Backup(cipher, prefix, BlocksOf(source), Manifest(|source|, f.digest(source), |BlocksOf(source)|))
  }

  lemma {:induction false} FlattenBound(blocks: seq<Bytes>)
    requires forall k :: 0 <= k < |blocks| ==> |blocks[k]| <= BLOCK_SIZE
    ensures |Flatten(blocks)| <= |blocks| * BLOCK_SIZE
  {
    if blocks != [] {
      FlattenBound(blocks[1..]);
    }
  }

  lemma BackupValid(cipher: Cipher, f: Formats, prefix: Bytes, source: Bytes)
    requires ValidFormats(f) && |prefix| == 8 && |BlocksOf(source)| < COUNTERS
    ensures BackupOf(cipher, f, prefix, source).Valid()
  {
    hide IsHex, ManifestText, Flatten;
    var m := BackupOf(cipher, f, prefix, source).manifest;
    BlocksPartition(source);
    FlattenBound(BlocksOf(source));
    assert IsHex(f.digest(source));
    ManifestAscii(m);
    ManifestFits(m);
  }

  // ---------------------------------------------------------------- reading

  datatype BackupError =
    | Truncated
    | UnsupportedFormat
    | InvalidManifestSize
    | InvalidBlockLength
    | NotAuthentic
    | ManifestMismatch
    | CounterOverflow

  datatype Restored = Restored(content: Bytes, manifest: Manifest)

  type Reading = Result<Restored, BackupError>

  /** The end marker: a size, the sealed manifest, and nothing after it. */
  function ReadEnd(cipher: Cipher, f: Formats, prefix: Bytes, rest: Bytes, counter: nat, content: Bytes): Reading {
    if |rest| < 4 then Err(Truncated)
    else
      var size := FromU32(rest[..4]);
      if !(16 <= size <= 1024) then Err(InvalidManifestSize)
      else if counter >= COUNTERS then Err(CounterOverflow)
      else if |rest| < 4 + size then Err(Truncated)
      else
        var plain := cipher.open(prefix + U32(counter), rest[4..4 + size], Header(prefix) + Ascii("end"));
        if plain.None? then Err(NotAuthentic)
        else
          var manifest := f.load(plain.value);
          if |rest| > 4 + size || manifest != Some(Manifest(|content|, f.digest(content), counter)) then Err(ManifestMismatch)
          else Ok(Restored(content, manifest.value))
  }

  /** Everything after the header, when counter blocks have been read into content. */
  function ReadFrom(cipher: Cipher, f: Formats, prefix: Bytes, rest: Bytes, counter: nat, content: Bytes): Reading
    decreases |rest|
  {
    if |rest| < 4 then Err(Truncated)
    else
      var size := FromU32(rest[..4]);
      if size == 0 then ReadEnd(cipher, f, prefix, rest[4..], counter, content)
      else if !(16 <= size <= BLOCK_SIZE + 16) then Err(InvalidBlockLength)
      else if counter >= COUNTERS then Err(CounterOverflow)
      else if |rest| < 4 + size then Err(Truncated)
      else
        var block := cipher.open(prefix + U32(counter), rest[4..4 + size], Header(prefix) + Ascii("data"));
        if block.None? then Err(NotAuthentic)
        else ReadFrom(cipher, f, prefix, rest[4 + size..], counter + 1, content + block.value)
  }

  function Decrypted(cipher: Cipher, f: Formats, source: Bytes): Reading {
    if |source| < 18 then Err(Truncated)
    else if source[..10] != Ascii(MAGIC) then Err(UnsupportedFormat)
    else ReadFrom(cipher, f, source[10..18], source[18..], 0, [])
  }

  // ---------------------------------------------------------------- the loops

  /** How much one read takes. */
  function ReadSize(rest: Bytes): (n: nat)
    ensures n <= |rest| && (rest != [] ==> 0 < n <= BLOCK_SIZE)
  {
    if |rest| < BLOCK_SIZE then |rest| else BLOCK_SIZE
  }

  lemma NextBlock(blocks: seq<Bytes>, counter: nat, rest: Bytes)
    requires rest != [] && counter <= |blocks| && blocks[counter..] == BlocksOf(rest)
    ensures counter < |blocks| && rest[..ReadSize(rest)] == blocks[counter]
    ensures blocks[counter + 1..] == BlocksOf(rest[ReadSize(rest)..])
  {
    assert blocks[counter + 1..] == blocks[counter..][1..];
    assert blocks[counter] == blocks[counter..][0];
    assert rest[..|rest|] == rest && rest[|rest|..] == [];
  }

  lemma TailStep(b: Backup, k: nat, outgoing: Bytes)
    requires b.Valid() && b.Sized() && k < |b.blocks|
    ensures outgoing + b.Tail(k) == outgoing + U32(|b.Sealed(k)|) + b.Sealed(k) + b.Tail(k + 1)
  {
    b.SealedSize(k);
  }

  /** What the writer has done: counter blocks, and total bytes of the source; the rest is still to read. */
  ghost predicate Written(b: Backup, outgoing: Bytes, counter: nat)
    requires b.Sized()
  {
    counter <= |b.blocks| && (b.Valid() ==> outgoing + b.Tail(counter) == b.File())
  }

  lemma WrittenStep(b: Backup, outgoing: Bytes, counter: nat)
    requires b.Sized() && Written(b, outgoing, counter) && counter < |b.blocks| && counter < COUNTERS
    requires |b.prefix| == 8 && |b.blocks[counter]| <= BLOCK_SIZE
    ensures
      var text := b.cipher.seal(Message(b.prefix + U32(counter), Header(b.prefix) + Ascii("data"), b.blocks[counter]));
      |text| < COUNTERS && Written(b, outgoing + U32(|text|) + text, counter + 1)
  {
    if b.Valid() {
      TailStep(b, counter, outgoing);
    }
  }

  lemma WrittenEnd(b: Backup, outgoing: Bytes)
    requires b.Valid() && b.Sized() && Written(b, outgoing, |b.blocks|)
    ensures
      var text := b.cipher.seal(Message(b.prefix + U32(|b.blocks|), Header(b.prefix) + Ascii("end"), Ascii(ManifestText(b.manifest))));
      |text| < COUNTERS && outgoing + U32(0) + U32(|text|) + text == b.File()
  {
    b.SealedSize(|b.blocks|);
  }

  lemma NothingWritten(cipher: Cipher, f: Formats, prefix: Bytes, source: Bytes)
    requires |prefix| == 8 && forall m: Message :: |cipher.seal(m)| == |m.plain| + TAG_SIZE
    ensures
      var b := BackupOf(cipher, f, prefix, source);
      && b.Sized() && Written(b, Header(prefix), 0) && b.blocks[0..] == BlocksOf(source)
      && b.prefix == prefix && b.cipher == cipher && |b.blocks| == |BlocksOf(source)|
  {
  }

  method Encrypt(cipher: Cipher, f: Formats, prefix: Bytes, source: Bytes) returns (result: Result<(Bytes, Manifest), BackupError>)
    requires ValidFormats(f) && |prefix| == 8 && forall m: Message :: |cipher.seal(m)| == |m.plain| + TAG_SIZE
    ensures |BlocksOf(source)| >= COUNTERS ==> result == Err(CounterOverflow)
    ensures |BlocksOf(source)| < COUNTERS ==>
              var b := BackupOf(cipher, f, prefix, source);
              b.Valid() && b.Sized() && result == Ok((b.File(), b.manifest))
  {
    var header := Header(prefix);
    var outgoing, rest := header, source;
    var counter: nat, total: nat := 0, 0;
    ghost var b := BackupOf(cipher, f, prefix, source);
    NothingWritten(cipher, f, prefix, source);
    hide *;
    while rest != []
      invariant b.Sized() && Written(b, outgoing, counter) && b.blocks[counter..] == BlocksOf(rest)
      invariant total + |rest| == |source| && counter <= COUNTERS
      decreases |rest|
    {
      NextBlock(b.blocks, counter, rest);
      var block := rest[..ReadSize(rest)];
      total := total + |block|;
      if counter >= COUNTERS {
        return Err(CounterOverflow);
      }
      outgoing := WriteBlock(cipher, header, prefix, outgoing, counter, block, b);
      rest := rest[ReadSize(rest)..];
      counter := counter + 1;
    }
    if counter >= COUNTERS {
      return Err(CounterOverflow);
    }
    BackupValid(cipher, f, prefix, source);
    var manifest := Manifest(total, f.digest(source), counter);
    outgoing := WriteEnd(cipher, header, prefix, outgoing, counter, manifest, b);
    return Ok((outgoing, manifest));
  }

  /** The body of the loop: the length of the sealed block, and the sealed block. */
  method WriteBlock(cipher: Cipher, header: Bytes, prefix: Bytes, outgoing: Bytes, counter: nat, block: Bytes, ghost b: Backup)
    returns (more: Bytes)
    requires header == Header(prefix) && b.cipher == cipher && b.prefix == prefix && |prefix| == 8
    requires b.Sized() && Written(b, outgoing, counter) && counter < |b.blocks| && counter < COUNTERS
    requires b.blocks[counter] == block && |block| <= BLOCK_SIZE
    ensures Written(b, more, counter + 1)
  {
    hide Written, Backup.Sized;
    WrittenStep(b, outgoing, counter);
    var ciphertext := cipher.seal(Message(prefix + U32(counter), header + Ascii("data"), block));
    more := outgoing + U32(|ciphertext|);
    more := more + ciphertext;
  }

  /** The end marker, the length of the sealed manifest, and the sealed manifest. */
  method WriteEnd(cipher: Cipher, header: Bytes, prefix: Bytes, outgoing: Bytes, counter: nat, manifest: Manifest, ghost b: Backup)
    returns (file: Bytes)
    requires header == Header(prefix) && b.cipher == cipher && b.prefix == prefix && b.manifest == manifest
    requires b.Valid() && b.Sized() && Written(b, outgoing, counter) && counter == |b.blocks|
    ensures file == b.File()
  {
    hide Written, Backup.Sized, Backup.File;
    WrittenEnd(b, outgoing);
    var ciphertext := cipher.seal(Message(prefix + U32(counter), header + Ascii("end"), Ascii(ManifestText(manifest))));
    file := outgoing + U32(0);
    file := file + U32(|ciphertext|);
    file := file + ciphertext;
  }

  method Decrypt(cipher: Cipher, f: Formats, source: Bytes) returns (result: Reading)
    ensures result == Decrypted(cipher, f, source)
  {
    if |source| < 18 {
      return Err(Truncated);
    }
    var header := source[..18];
    if header[..10] != Ascii(MAGIC) {
      return Err(UnsupportedFormat);
    }
    var prefix := header[10..];
    assert prefix == source[10..18] && source[..10] == header[..10];
    var incoming, content: Bytes, counter: nat := source[18..], [], 0;
    while true
      invariant Decrypted(cipher, f, source) == ReadFrom(cipher, f, prefix, incoming, counter, content)
      decreases |incoming|
    {
      hide Decrypted, FromU32, U32, Ascii, Header, ReadEnd;
      if |incoming| < 4 {
        return Err(Truncated);
      }
      var size := FromU32(incoming[..4]);
      if size == 0 {
        result := ReadEnd(cipher, f, prefix, incoming[4..], counter, content);
        return;
      }
      if !(16 <= size <= BLOCK_SIZE + 16) {
        return Err(InvalidBlockLength);
      }
      if counter >= COUNTERS {
        return Err(CounterOverflow);
      }
      if |incoming| < 4 + size {
        return Err(Truncated);
      }
      var block := cipher.open(prefix + U32(counter), incoming[4..4 + size], Header(prefix) + Ascii("data"));
      if block.None? {
        return Err(NotAuthentic);
      }
      content := content + block.value;
      counter := counter + 1;
      incoming := incoming[4 + size..];
    }
  }

  // ---------------------------------------------------------------- what the reader accepts

  /** A backup of some content, as Encrypt makes it. */
  ghost predicate Made(b: Backup, c: Cipher, f: Formats) {
    var content := Flatten(b.blocks);
    b.cipher == c && b.Valid() && b.manifest == Manifest(|content|, f.digest(content), |b.blocks|)
  }

  /** The message was sealed as part k of backup b. */
  predicate SealedAs(b: Backup, k: nat, nonce: Bytes, data: Bytes, plain: Bytes, text: Bytes) {
    b.Valid() && k <= |b.blocks| && b.MessageAt(k) == Message(nonce, data, plain) && text == b.Sealed(k)
  }

  /** What is assumed of the cipher under one key, and of the random prefixes: the tag takes 16 bytes, the cipher opens
      what was sealed for a backup and nothing else, and no two backups share a prefix. */
  ghost predicate Ideal(c: Cipher, f: Formats, made: set<Backup>) {
    && (forall m: Message :: |c.seal(m)| == |m.plain| + TAG_SIZE)
    && (forall b: Backup :: b in made ==> Made(b, c, f))
    && (forall b: Backup, k: nat :: b in made && k <= |b.blocks| ==>
          c.open(b.MessageAt(k).nonce, b.Sealed(k), b.MessageAt(k).data) == Some(b.MessageAt(k).plain))
    && (forall nonce: Bytes, text: Bytes, data: Bytes :: c.open(nonce, text, data).Some? ==>
          exists b: Backup, k: nat :: b in made && SealedAs(b, k, nonce, data, c.open(nonce, text, data).value, text))
    && (forall a: Backup, b: Backup :: a in made && b in made && a.prefix == b.prefix ==> a == b)
  }

  lemma NonceParts(p: Bytes, n: nat, q: Bytes, m: nat)
    requires |p| == |q| == 8 && n < COUNTERS && m < COUNTERS && p + U32(n) == q + U32(m)
    ensures p == q && n == m
  {
    assert p == (p + U32(n))[..8] && q == (q + U32(m))[..8];
    assert U32(n) == (p + U32(n))[8..] && U32(m) == (q + U32(m))[8..];
    U32RoundTrip(n);
    U32RoundTrip(m);
  }

  lemma DataIsNotEnd(h: Bytes)
    ensures h + Ascii("data") != h + Ascii("end")
  {
    assert |h + Ascii("data")| != |h + Ascii("end")|;
  }

  /** What opens under the prefix of a backup is its own part with that number, and of that kind. */
  lemma OpensOwnPart(c: Cipher, f: Formats, made: set<Backup>, b: Backup, k: nat, text: Bytes, end: bool)
    requires Ideal(c, f, made) && b in made && k < COUNTERS
    requires c.open(b.prefix + U32(k), text, Header(b.prefix) + Ascii(if end then "end" else "data")).Some?
    ensures b.Valid() && k <= |b.blocks| && (end <==> k == |b.blocks|) && text == b.Sealed(k)
    ensures c.open(b.prefix + U32(k), text, Header(b.prefix) + Ascii(if end then "end" else "data")) == Some(b.MessageAt(k).plain)
  {
    hide U32, Ascii, Header;
    var nonce, data := b.prefix + U32(k), Header(b.prefix) + Ascii(if end then "end" else "data");
    var plain := c.open(nonce, text, data).value;
    var a, j :| a in made && SealedAs(a, j, nonce, data, plain, text);
    assert Made(a, c, f) && Made(b, c, f);
    NonceParts(a.prefix, j, b.prefix, k);
    assert a == b;
    DataIsNotEnd(Header(b.prefix));
  }

  lemma FlattenAppend(blocks: seq<Bytes>, k: nat)
    requires k < |blocks|
    ensures Flatten(blocks[..k + 1]) == Flatten(blocks[..k]) + blocks[k]
  {
    if k == 0 {
      assert blocks[..1] == [blocks[0]] && blocks[..1][1..] == [];
    } else {
      assert blocks[..k + 1][1..] == blocks[1..][..k] && blocks[..k][1..] == blocks[1..][..k - 1];
      FlattenAppend(blocks[1..], k - 1);
    }
  }

  lemma FrameParts(text: Bytes, after: Bytes)
    requires |text| < COUNTERS
    ensures
      var rest := U32(|text|) + text + after;
      && |rest| >= 4 + |text| && FromU32(rest[..4]) == |text|
      && rest[4..4 + |text|] == text && rest[4 + |text|..] == after
  {
    var rest := U32(|text|) + text + after;
    assert rest[..4] == U32(|text|);
    U32RoundTrip(|text|);
  }

  lemma EndParts(text: Bytes)
    requires |text| < COUNTERS
    ensures
      var rest := U32(0) + (U32(|text|) + text);
      && |rest| == 8 + |text| && FromU32(rest[..4]) == 0 && rest[4..] == U32(|text|) + text
      && FromU32(rest[4..][..4]) == |text| && rest[4..][4..4 + |text|] == text
  {
    var rest := U32(0) + (U32(|text|) + text);
    assert rest[..4] == U32(0) && rest[4..] == U32(|text|) + text;
    FrameParts(text, []);
    assert U32(|text|) + text + [] == U32(|text|) + text;
    U32RoundTrip(0);
  }

  /** The kind of part k, as the associated data names it. */
  function Kind(b: Backup, k: nat): Bytes {
    Header(b.prefix) + Ascii(if k == |b.blocks| then "end" else "data")
  }

  /** The cipher opens every part of a backup made under the key. */
  ghost predicate PartOpens(b: Backup, k: nat)
    requires b.Valid() && k <= |b.blocks|
  {
    b.cipher.open(b.prefix + U32(k), b.Sealed(k), Kind(b, k)) == Some(b.MessageAt(k).plain)
  }

  lemma PartsOpen(c: Cipher, f: Formats, made: set<Backup>, b: Backup, k: nat)
    requires Ideal(c, f, made) && b in made && k <= |b.blocks|
    ensures Made(b, c, f) && b.Sized() && PartOpens(b, k)
  {
    assert Made(b, c, f);
    assert c.open(b.MessageAt(k).nonce, b.Sealed(k), b.MessageAt(k).data) == Some(b.MessageAt(k).plain);
  }

  /** Reading the end of a backup that has been read so far. */
  lemma EndReads(f: Formats, b: Backup)
    requires b.Valid() && b.Sized() && ValidFormats(f) && Made(b, b.cipher, f) && PartOpens(b, |b.blocks|)
    ensures ReadFrom(b.cipher, f, b.prefix, b.Tail(|b.blocks|), |b.blocks|, Flatten(b.blocks))
         == Ok(Restored(Flatten(b.blocks), b.manifest))
  {
    hide FromU32, U32, Ascii, Header, Flatten, ManifestText;
    b.SealedSize(|b.blocks|);
    EndParts(b.Sealed(|b.blocks|));
    assert f.load(Ascii(ManifestText(b.manifest))) == Some(b.manifest);
  }

  /** Reading one block of a backup. */
  lemma BlockReads(f: Formats, b: Backup, k: nat, content: Bytes)
    requires b.Valid() && b.Sized() && k < |b.blocks| && PartOpens(b, k)
    ensures ReadFrom(b.cipher, f, b.prefix, b.Tail(k), k, content)
         == ReadFrom(b.cipher, f, b.prefix, b.Tail(k + 1), k + 1, content + b.blocks[k])
  {
    hide FromU32, U32, Ascii, Header, ManifestText;
    b.SealedSize(k);
    FrameParts(b.Sealed(k), b.Tail(k + 1));
  }

  /** The reader takes the tail of a backup. */
  lemma {:induction false} ReadsTail(c: Cipher, f: Formats, made: set<Backup>, b: Backup, k: nat)
    requires Ideal(c, f, made) && ValidFormats(f) && b in made && b.Valid() && b.Sized() && k <= |b.blocks|
    ensures ReadFrom(c, f, b.prefix, b.Tail(k), k, Flatten(b.blocks[..k])) == Ok(Restored(Flatten(b.blocks), b.manifest))
    decreases |b.blocks| - k
  {
    hide Ideal, PartOpens, ReadFrom, Flatten, ValidFormats, Backup.Valid, Backup.Sized, Backup.Tail;
    PartsOpen(c, f, made, b, k);
    if k == |b.blocks| {
      assert b.blocks[..k] == b.blocks;
      EndReads(f, b);
    } else {
      FlattenAppend(b.blocks, k);
      BlockReads(f, b, k, Flatten(b.blocks[..k]));
      ReadsTail(c, f, made, b, k + 1);
    }
  }

  lemma Reassemble(rest: Bytes, size: nat)
    requires 4 + size <= |rest| && FromU32(rest[..4]) == size
    ensures rest == U32(size) + rest[4..4 + size] + rest[4 + size..]
  {
    hide FromU32, U32;
    FromU32RoundTrip(rest[..4]);
  }

  /** The reader takes nothing else: under the prefix of a backup, what it accepts after k blocks is the tail. */
  lemma {:induction false} OnlyTail(c: Cipher, f: Formats, made: set<Backup>, b: Backup, rest: Bytes, k: nat, content: Bytes)
    requires Ideal(c, f, made) && b in made && b.Valid() && b.Sized()
    requires ReadFrom(c, f, b.prefix, rest, k, content).Ok?
    ensures k <= |b.blocks| && rest == b.Tail(k)
    decreases |rest|
  {
    hide Ideal, FromU32, U32, Ascii, Header, Backup.Valid, Backup.Sized, Backup.Sealed, Backup.MessageAt;
    var size := FromU32(rest[..4]);
    if size == 0 {
      EndOnly(c, f, made, b, rest, k, content);
    } else {
      var text := rest[4..4 + size];
      OpensOwnPart(c, f, made, b, k, text, false);
      OnlyTail(c, f, made, b, rest[4 + size..], k + 1,
               content + c.open(b.prefix + U32(k), text, Header(b.prefix) + Ascii("data")).value);
      Reassemble(rest, size);
    }
  }

  lemma EndOnly(c: Cipher, f: Formats, made: set<Backup>, b: Backup, rest: Bytes, k: nat, content: Bytes)
    requires Ideal(c, f, made) && b in made && b.Valid() && b.Sized()
    requires |rest| >= 4 && FromU32(rest[..4]) == 0 && ReadEnd(c, f, b.prefix, rest[4..], k, content).Ok?
    ensures k == |b.blocks| && rest == b.Tail(k)
  {
    hide Ideal, FromU32, U32, Ascii, Header, Backup.Valid, Backup.Sized, Backup.Sealed, Backup.MessageAt;
    var after := rest[4..];
    var size := FromU32(after[..4]);
    OpensOwnPart(c, f, made, b, k, after[4..4 + size], true);
    Reassemble(after, size);
    Reassemble(rest, 0);
    assert after[4 + size..] == [];
    assert rest == U32(0) + rest[4..4] + after;
  }

  lemma FileParts(b: Backup)
    requires b.Valid() && b.Sized()
    ensures
      var file := b.File();
      |file| >= 18 && file[..10] == Ascii(MAGIC) && file[10..18] == b.prefix && file[18..] == b.Tail(0)
  {
    var file := b.File();
    assert file == Ascii(MAGIC) + (b.prefix + b.Tail(0));
    assert file[10..] == b.prefix + b.Tail(0);
  }

  /** Without a backup of that prefix nothing opens at all. */
  lemma NoBackupNothingOpens(c: Cipher, f: Formats, made: set<Backup>, prefix: Bytes, k: nat, text: Bytes, data: Bytes)
    requires Ideal(c, f, made) && |prefix| == 8 && k < COUNTERS && forall b: Backup :: b in made ==> b.prefix != prefix
    ensures c.open(prefix + U32(k), text, data).None?
  {
    if c.open(prefix + U32(k), text, data).Some? {
      var b: Backup, j: nat :| b in made
        && SealedAs(b, j, prefix + U32(k), data, c.open(prefix + U32(k), text, data).value, text);
      assert Made(b, c, f);
      NonceParts(b.prefix, j, prefix, k);
      assert false;
    }
  }

  lemma NoBackupNothingRead(c: Cipher, f: Formats, made: set<Backup>, prefix: Bytes, rest: Bytes, k: nat, content: Bytes)
    requires Ideal(c, f, made) && |prefix| == 8 && forall b: Backup :: b in made ==> b.prefix != prefix
    ensures !ReadFrom(c, f, prefix, rest, k, content).Ok?
  {
    hide Ideal;
    if k < COUNTERS {
      forall text: Bytes, data: Bytes ensures c.open(prefix + U32(k), text, data).None? {
        NoBackupNothingOpens(c, f, made, prefix, k, text, data);
      }
    }
  }

  /** decrypt accepts exactly the backups made under the key, byte for byte, and gives back their content and manifest:
      no truncation, reordering, duplication, early end marker or trailing byte goes through. */
  lemma AcceptsExactlyBackups(c: Cipher, f: Formats, made: set<Backup>, source: Bytes)
    requires Ideal(c, f, made) && ValidFormats(f)
    ensures Decrypted(c, f, source).Ok? <==> exists b: Backup :: b in made && b.Valid() && b.Sized() && source == b.File()
    ensures forall b: Backup :: b in made && b.Valid() && b.Sized() && source == b.File() ==>
              Decrypted(c, f, source) == Ok(Restored(Flatten(b.blocks), b.manifest))
  {
    hide ReadFrom, ValidFormats, Flatten, Backup.Tail, Backup.File;
    forall b: Backup | b in made && b.Valid() && b.Sized() && source == b.File()
      ensures Decrypted(c, f, source) == Ok(Restored(Flatten(b.blocks), b.manifest))
    {
      FileParts(b);
      ReadsTail(c, f, made, b, 0);
      assert b.blocks[..0] == [] && Flatten([]) == [] by { NothingFlat(); }
    }
    if Decrypted(c, f, source).Ok? {
      var prefix := source[10..18];
      if exists b: Backup :: b in made && b.prefix == prefix {
        var b: Backup :| b in made && b.prefix == prefix;
        PartsOpen(c, f, made, b, 0);
        OnlyTail(c, f, made, b, source[18..], 0, []);
        FileIs(b, source);
      } else {
        NoBackupNothingRead(c, f, made, prefix, source[18..], 0, []);
      }
    }
  }

  lemma NothingFlat()
    ensures Flatten([]) == []
  {
  }

  lemma FileIs(b: Backup, source: Bytes)
    requires b.Valid() && b.Sized() && |source| >= 18
    requires source[..10] == Ascii(MAGIC) && source[10..18] == b.prefix && source[18..] == b.Tail(0)
    ensures source == b.File()
  {
    assert source == source[..10] + source[10..18] + source[18..];
  }

  /** The round trip: for every source below the block counter, decrypting what encrypt writes gives the source and the
      manifest that encrypt returned. */
  lemma RoundTrip(c: Cipher, f: Formats, made: set<Backup>, prefix: Bytes, source: Bytes)
    requires ValidFormats(f) && |prefix| == 8 && |BlocksOf(source)| < COUNTERS
    requires Ideal(c, f, made) && BackupOf(c, f, prefix, source) in made
    ensures
      var b := BackupOf(c, f, prefix, source);
      b.Valid() && b.Sized() && Decrypted(c, f, b.File()) == Ok(Restored(source, b.manifest))
  {
    var b := BackupOf(c, f, prefix, source);
    BackupValid(c, f, prefix, source);
    BlocksPartition(source);
    AcceptsExactlyBackups(c, f, made, b.File());
  }

  // ---------------------------------------------------------------- the format, byte by byte

  /** Numbers are four bytes, the most significant first. */
  lemma U32Means(n: nat)
    requires n < 0x1_0000_0000
    ensures
      var a: int, b: int, c: int, d: int := U32(n)[0], U32(n)[1], U32(n)[2], U32(n)[3];
      a * 0x100_0000 + b * 0x1_0000 + c * 0x100 + d == n
  {
    PairRoundTrip(n / 0x1_0000);
    PairRoundTrip(n % 0x1_0000);
    assert Pair256(n / 0x1_0000 / 0x100, n / 0x1_0000 % 0x100) == n / 0x1_0000;
    assert Pair256(n % 0x1_0000 / 0x100, n % 0x1_0000 % 0x100) == n % 0x1_0000;
  }

  predicate FullBlock(blocks: seq<Bytes>, k: nat)
    requires k < |blocks|
  {
    0 < |blocks[k]| <= 1048576 && (k + 1 < |blocks| ==> |blocks[k]| == 1048576)
  }

  /** The source is read in blocks of 1 MiB: all of them are full but for the last, and none is empty. */
  lemma {:induction false} BlocksAreFull(source: Bytes)
    ensures forall k :: 0 <= k < |BlocksOf(source)| ==> FullBlock(BlocksOf(source), k)
  {
    if |source| > BLOCK_SIZE {
      var rest, blocks := BlocksOf(source[BLOCK_SIZE..]), BlocksOf(source);
      BlocksAreFull(source[BLOCK_SIZE..]);
      assert blocks == [source[..BLOCK_SIZE]] + rest && |source[..BLOCK_SIZE]| == 1048576;
      forall k | 0 <= k < |blocks| ensures FullBlock(blocks, k) {
        if k > 0 {
          assert blocks[k] == rest[k - 1] && FullBlock(rest, k - 1);
        }
      }
    }
  }

  /** A backup is of its whole source, and its manifest says so. */
  lemma BackupIsOfSource(cipher: Cipher, f: Formats, prefix: Bytes, source: Bytes)
    requires ValidFormats(f) && |prefix| == 8 && |BlocksOf(source)| < COUNTERS
    ensures
      var b := BackupOf(cipher, f, prefix, source);
      && b.cipher == cipher && b.prefix == prefix && Flatten(b.blocks) == source && Made(b, cipher, f)
      && b.manifest.bytes == |source| && b.manifest.sha256 == f.digest(source) && b.manifest.blocks == |b.blocks|
  {
    BackupValid(cipher, f, prefix, source);
    BlocksPartition(source);
  }

  /** The file of a backup: the magic and the prefix; each block sealed under the prefix and its number and bound to the
      header as data, behind its length; a zero; and the manifest sealed under the next number and bound as the end, behind
      its length. */
  ghost function Frames(b: Backup, k: nat): Bytes
    requires |b.prefix| == 8 && k <= |b.blocks| < COUNTERS
    requires forall m: Message :: |b.cipher.seal(m)| < COUNTERS || |m.plain| > 1048576
    requires forall i :: 0 <= i < |b.blocks| ==> |b.blocks[i]| <= 1048576
    requires IsAscii(ManifestText(b.manifest)) && |ManifestText(b.manifest)| <= 1048576
    decreases |b.blocks| - k
  {
    var header := Ascii("RAGBACKUP1") + b.prefix;
    if k == |b.blocks| then
      var sealed := b.cipher.seal(Message(b.prefix + U32(k), header + Ascii("end"), Ascii(ManifestText(b.manifest))));
      U32(0) + U32(|sealed|) + sealed
    else
      var sealed := b.cipher.seal(Message(b.prefix + U32(k), header + Ascii("data"), b.blocks[k]));
      U32(|sealed|) + sealed + Frames(b, k + 1)
  }

  lemma {:induction false} TailIsFrames(b: Backup, k: nat)
    requires b.Valid() && b.Sized() && k <= |b.blocks|
    ensures b.Tail(k) == Frames(b, k)
    decreases |b.blocks| - k
  {
    hide U32, Ascii, ManifestText;
    b.SealedSize(k);
    if k < |b.blocks| {
      TailIsFrames(b, k + 1);
    } else {
      var sealed := b.Sealed(k);
      assert U32(0) + (U32(|sealed|) + sealed) == U32(0) + U32(|sealed|) + sealed;
    }
  }

  lemma FileMeans(b: Backup)
    requires b.Valid() && b.Sized()
    ensures b.File() == Ascii("RAGBACKUP1") + b.prefix + Frames(b, 0)
  {
    TailIsFrames(b, 0);
  }

  /** What the reader does with each kind of malformed file, and in which order it looks. */
  lemma DecryptionErrors(c: Cipher, f: Formats, source: Bytes)
    ensures |source| < 18 ==> Decrypted(c, f, source) == Err(Truncated)
    ensures |source| >= 18 && source[..10] != Ascii("RAGBACKUP1") ==> Decrypted(c, f, source) == Err(UnsupportedFormat)
    ensures |source| >= 18 && source[..10] == Ascii("RAGBACKUP1") ==>
              Decrypted(c, f, source) == ReadFrom(c, f, source[10..18], source[18..], 0, [])
  {
  }

  lemma BlockErrors(c: Cipher, f: Formats, prefix: Bytes, rest: Bytes, k: nat, content: Bytes)
    requires |rest| >= 4 && FromU32(rest[..4]) != 0
    ensures
      var size := FromU32(rest[..4]);
      var reading := ReadFrom(c, f, prefix, rest, k, content);
      if size < 16 || size > 1048592 then reading == Err(InvalidBlockLength)
      else if k >= 4294967296 then reading == Err(CounterOverflow)
      else if |rest| < 4 + size then reading == Err(Truncated)
      else
        var block := c.open(prefix + U32(k), rest[4..4 + size], Ascii("RAGBACKUP1") + prefix + Ascii("data"));
        if block == None then reading == Err(NotAuthentic)
        else reading == ReadFrom(c, f, prefix, rest[4 + size..], k + 1, content + block.value)
  {
  }

  lemma EndErrors(c: Cipher, f: Formats, prefix: Bytes, rest: Bytes, k: nat, content: Bytes)
    ensures |rest| < 4 ==> ReadFrom(c, f, prefix, rest, k, content) == Err(Truncated)
    ensures |rest| >= 4 && FromU32(rest[..4]) == 0 ==>
      var reading, end := ReadFrom(c, f, prefix, rest, k, content), rest[4..];
      if |end| < 4 then reading == Err(Truncated)
      else
        var size := FromU32(end[..4]);
        if size < 16 || size > 1024 then reading == Err(InvalidManifestSize)
        else if k >= 4294967296 then reading == Err(CounterOverflow)
        else if |end| < 4 + size then reading == Err(Truncated)
        else
          var plain := c.open(prefix + U32(k), end[4..4 + size], Ascii("RAGBACKUP1") + prefix + Ascii("end"));
          if plain == None then reading == Err(NotAuthentic)
          else if |end| == 4 + size && f.load(plain.value) == Some(Manifest(|content|, f.digest(content), k)) then
            reading == Ok(Restored(content, Manifest(|content|, f.digest(content), k)))
          else reading == Err(ManifestMismatch)
  {
  }

  // ---------------------------------------------------------------- the assumptions can be met

  /** A cipher for one list of messages: it does not hide them, but opens them and nothing else. */
  function PlainSeal(m: Message): Bytes {
    m.plain + seq(TAG_SIZE, i => 0)
  }

  function OpenAmong(messages: seq<Message>, nonce: Bytes, text: Bytes, data: Bytes): Option<Bytes> {
    if messages == [] then None
    else if messages[0].nonce == nonce && messages[0].data == data && PlainSeal(messages[0]) == text then Some(messages[0].plain)
    else OpenAmong(messages[1..], nonce, text, data)
  }

  lemma {:induction false} OpensExactly(messages: seq<Message>, nonce: Bytes, text: Bytes, data: Bytes)
    ensures OpenAmong(messages, nonce, text, data).Some? ==>
              exists k :: 0 <= k < |messages| && messages[k] == Message(nonce, data, OpenAmong(messages, nonce, text, data).value)
                          && PlainSeal(messages[k]) == text
    ensures forall k :: 0 <= k < |messages| && messages[k].nonce == nonce && messages[k].data == data && PlainSeal(messages[k]) == text ==>
              OpenAmong(messages, nonce, text, data) == Some(messages[k].plain)
  {
    if messages != [] {
      OpensExactly(messages[1..], nonce, text, data);
      forall k | 0 <= k < |messages| && messages[k].nonce == nonce && messages[k].data == data && PlainSeal(messages[k]) == text
        ensures OpenAmong(messages, nonce, text, data) == Some(messages[k].plain)
      {
        if k > 0 {
          assert messages[k] == messages[1..][k - 1];
        }
        SealedAlike(messages[0], messages[k]);
      }
      if OpenAmong(messages, nonce, text, data).Some? && !(messages[0].nonce == nonce && messages[0].data == data && PlainSeal(messages[0]) == text) {
        var k :| 0 <= k < |messages[1..]|
                 && messages[1..][k] == Message(nonce, data, OpenAmong(messages[1..], nonce, text, data).value)
                 && PlainSeal(messages[1..][k]) == text;
        assert messages[k + 1] == messages[1..][k];
      }
    }
  }

  lemma SealedAlike(a: Message, b: Message)
    ensures PlainSeal(a) == PlainSeal(b) ==> a.plain == b.plain
  {
    assert PlainSeal(a)[..|PlainSeal(a)| - TAG_SIZE] == a.plain;
    assert PlainSeal(b)[..|PlainSeal(b)| - TAG_SIZE] == b.plain;
  }

  function MessagesOf(b: Backup): (messages: seq<Message>)
    requires b.Valid()
    ensures |messages| == |b.blocks| + 1
  {
    seq(|b.blocks| + 1, k requires 0 <= k <= |b.blocks| => b.MessageAt(k))
  }

  function PlainCipher(messages: seq<Message>): Cipher {
    Cipher(PlainSeal, (nonce: Bytes, text: Bytes, data: Bytes) => OpenAmong(messages, nonce, text, data))
  }

  /** For every source there is a cipher that meets what is assumed of it, with the backup of that source made under it: the
      theorems are about something. */
  lemma IdealCipherExists(f: Formats, prefix: Bytes, source: Bytes) returns (c: Cipher)
    requires ValidFormats(f) && |prefix| == 8 && |BlocksOf(source)| < COUNTERS
    ensures Ideal(c, f, {BackupOf(c, f, prefix, source)})
    ensures BackupOf(c, f, prefix, source).Valid() && BackupOf(c, f, prefix, source).Sized()
    ensures Decrypted(c, f, BackupOf(c, f, prefix, source).File()) == Ok(Restored(source, BackupOf(c, f, prefix, source).manifest))
  {
    hide Decrypted, ValidFormats, BlocksOf, Flatten, ManifestText, OpenAmong, Ascii, U32, Backup.File;
    var draft := BackupOf(Cipher(PlainSeal, (nonce: Bytes, text: Bytes, data: Bytes) => None), f, prefix, source);
    BackupIsOfSource(draft.cipher, f, prefix, source);
    var messages := MessagesOf(draft);
    c := PlainCipher(messages);
    var b := BackupOf(c, f, prefix, source);
    BackupIsOfSource(c, f, prefix, source);
    PlainIsIdeal(c, f, b, messages);
    RoundTrip(c, f, {b}, prefix, source);
  }

  lemma PlainIsIdeal(c: Cipher, f: Formats, b: Backup, messages: seq<Message>)
    requires c == PlainCipher(messages) && Made(b, c, f)
    requires |messages| == |b.blocks| + 1 && forall k :: 0 <= k <= |b.blocks| ==> messages[k] == b.MessageAt(k)
    ensures Ideal(c, f, {b})
  {
    hide Made, OpenAmong, Backup.MessageAt;
    assert b.cipher == c && b.Valid() by { MadeIsValid(b, c, f); }
    forall k: nat | k <= |b.blocks| ensures c.open(b.MessageAt(k).nonce, b.Sealed(k), b.MessageAt(k).data) == Some(b.MessageAt(k).plain) {
      OpensExactly(messages, b.MessageAt(k).nonce, b.Sealed(k), b.MessageAt(k).data);
      assert messages[k] == b.MessageAt(k);
    }
    forall nonce: Bytes, text: Bytes, data: Bytes | c.open(nonce, text, data).Some?
      ensures exists k: nat :: SealedAs(b, k, nonce, data, c.open(nonce, text, data).value, text)
    {
      OpensExactly(messages, nonce, text, data);
      var k :| 0 <= k < |messages| && messages[k] == Message(nonce, data, c.open(nonce, text, data).value) && PlainSeal(messages[k]) == text;
      assert SealedAs(b, k, nonce, data, c.open(nonce, text, data).value, text);
    }
  }

  lemma MadeIsValid(b: Backup, c: Cipher, f: Formats)
    requires Made(b, c, f)
    ensures b.cipher == c && b.Valid()
  {
  }
}
