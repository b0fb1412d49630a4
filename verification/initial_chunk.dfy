/** The initial DERIVE_CONTEXT_HASH chunk as a host prints it, against the cursor that reads it. */
module InitialChunks {
  import opened Octets
  import opened Session

  /** The levels of a path, four bytes each, most significant byte first. */
  function PathBytes(path: seq<U32>): (b: Bytes)
    ensures |b| == 4 * |path|
  {
    if path == [] then [] else BE(path[0], 4) + PathBytes(path[1..])
  }

  /** name length, name, path length, path, total length, first context bytes */
  function PrintInitial(name: Bytes, path: seq<U32>, total: U16, chunk: Bytes): Bytes
    requires |name| < 256 && |path| < 256
  {
    [|name| as Byte] + name + [|path| as Byte] + PathBytes(path) + BE(total, 2) + chunk
  }

  predicate NameChar(c: Byte) {
    || 'a' as int <= c as int <= 'z' as int
    || '0' as int <= c as int <= '9' as int
    || c as int == '-' as int
  }

  predicate ValidInitial(name: Bytes, path: seq<U32>, total: U16, chunk: Bytes) {
    && 1 <= |name| <= 64 && (forall c :: c in name ==> NameChar(c))
    && 1 <= |path| <= 10
    && 1 <= total <= 1024 && |chunk| <= total
  }

  /** data is a well-formed chunk with these parts. */
  predicate IsPrinted(data: Bytes, name: Bytes, path: seq<U32>, total: U16, chunk: Bytes) {
    ValidInitial(name, path, total, chunk) && data == PrintInitial(name, path, total, chunk)
  }

  lemma {:induction false} PathReads(data: Bytes, off: nat, path: seq<U32>)
    requires off + 4 * |path| <= |data|
    ensures DecodeBE32(data, off, |path|) == path <==> data[off..off + 4 * |path|] == PathBytes(path)
    decreases |path|
  {
    hide BE, FromBE;
    if path != [] {
      var n := |path|;
      PathReads(data, off + 4, path[1..]);
      Pow256Values();
      BEDecodes(path[0], 4);
      BEEncodes(data[off..off + 4]);
      assert path == [path[0]] + path[1..];
      assert DecodeBE32(data, off, n) == [ReadU32BE(data, off)] + DecodeBE32(data, off + 4, n - 1);
      var d := data[off..off + 4 * n];
      assert d[..4] == data[off..off + 4] && d[4..] == data[off + 4..off + 4 + 4 * (n - 1)];
      assert d == d[..4] + d[4..];
      assert PathBytes(path)[..4] == BE(path[0], 4) && PathBytes(path)[4..] == PathBytes(path[1..]);
      assert PathBytes(path) == PathBytes(path)[..4] + PathBytes(path)[4..];
    }
  }

  lemma CharsetMeans(name: Bytes)
    ensures CharsetValid(name) <==> forall c :: c in name ==> NameChar(c)
  {
    if CharsetValid(name) {
      forall c | c in name ensures NameChar(c) {
        var k :| 0 <= k < |name| && name[k] == c;
      }
    } else {
      var k :| 0 <= k < |name| && !(97 <= name[k] <= 122 || 48 <= name[k] <= 57 || name[k] == 45);
      assert name[k] in name && !NameChar(name[k]);
    }
  }

  /** A printed chunk reads back field by field. */
  lemma PrintedParses(name: Bytes, path: seq<U32>, total: U16, chunk: Bytes)
    requires ValidInitial(name, path, total, chunk)
    ensures ParseInitial(PrintInitial(name, path, total, chunk)) == Good(name, path, total, chunk)
  {
    hide BE, FromBE, PathBytes, DecodeBE32, CharsetValid, NameChar;
    var data := PrintInitial(name, path, total, chunk);
    var n, m := |name|, |path|;
    CharsetMeans(name);
    assert data[0] == n as Byte && data[1..1 + n] == name && data[1 + n] == m as Byte;
    assert data[2 + n..2 + n + 4 * m] == PathBytes(path);
    PathReads(data, 2 + n, path);
    assert data[2 + n + 4 * m..4 + n + 4 * m] == BE(total, 2) && data[4 + n + 4 * m..] == chunk;
    Pow256Values();
    BEDecodes(total, 2);
  }

  /** What the reader accepts is the printing of what it read. */
  lemma ParsedPrints(data: Bytes)
    requires ParseInitial(data).Good?
    ensures var i := ParseInitial(data);
            ValidInitial(i.appName, i.path, i.total, i.chunk) && data == PrintInitial(i.appName, i.path, i.total, i.chunk)
  {
    hide BE, FromBE, PathBytes, DecodeBE32, CharsetValid, NameChar;
    var i := ParseInitial(data);
    var n, m := |i.appName|, |i.path|;
    CharsetMeans(i.appName);
    PathReads(data, 2 + n, i.path);
    Pow256Values();
    BEEncodes(data[2 + n + 4 * m..4 + n + 4 * m]);
    assert data == [data[0]] + data[1..1 + n] + [data[1 + n]] + data[2 + n..2 + n + 4 * m]
                   + data[2 + n + 4 * m..4 + n + 4 * m] + data[4 + n + 4 * m..];
  }

  /** The chunk is accepted, as these four parts, exactly when it is their printing. */
  lemma InitialAccepts(data: Bytes, name: Bytes, path: seq<U32>, total: U16, chunk: Bytes)
    ensures ParseInitial(data) == Good(name, path, total, chunk) <==> IsPrinted(data, name, path, total, chunk)
  {
    hide ParseInitial, PrintInitial;
    if ParseInitial(data) == Good(name, path, total, chunk) {
      ParsedPrints(data);
    }
    if IsPrinted(data, name, path, total, chunk) {
      PrintedParses(name, path, total, chunk);
    }
  }
}
