/** The second half of the generator of Schemas.h (scripts/zip_xsd.py): the
    search for the XSD files, the ordered dictionary of serialised schemas
    and the text of the header. */
module SchemaHeaderText {
  import opened Text
  import Hex
  import SchemaHeader

  // ---------------------------------------------------------------------
  // File discovery: find_xsd_files, find_all_xsd_files

  /** `find_xsd_files`: the `.xsd` files `glob` lists in `dir`, or nothing when
      the directory does not exist. `listing(dir)` stands for the file system:
      None for a missing directory, otherwise glob's matches in its order. */
  function FindXsdFiles(listing: string -> Option<seq<string>>, dir: string): (r: seq<string>)
    ensures listing(dir).None? ==> r == []
    ensures listing(dir).Some? ==> r == listing(dir).value
  {
    match listing(dir)
    case None => []
    case Some(found) => found
  }

  /** What a sequence of directories contributes, one directory after the other. */
  function FoundIn(listing: string -> Option<seq<string>>, dirs: seq<string>): seq<string> {
    if dirs == [] then [] else FindXsdFiles(listing, dirs[0]) + FoundIn(listing, dirs[1..])
  }

  /** The search is ordered: everything found in the first directories comes
      before everything found in the later ones. */
  lemma {:induction false} FoundInAppend(listing: string -> Option<seq<string>>, a: seq<string>, b: seq<string>)
    ensures FoundIn(listing, a + b) == FoundIn(listing, a) + FoundIn(listing, b)
    decreases |a|
  {
    if a == [] {
      assert a + b == b;
    } else {
      assert (a + b)[1..] == a[1..] + b;
      FoundInAppend(listing, a[1..], b);
    }
  }

  /** Searching one more directory appends its files. */
  lemma FoundInExtend(listing: string -> Option<seq<string>>, dirs: seq<string>, dir: string)
    ensures FoundIn(listing, dirs + [dir]) == FoundIn(listing, dirs) + FindXsdFiles(listing, dir)
  {
    FoundInAppend(listing, dirs, [dir]);
    assert [dir][1..] == [];
  }

  /** `find_all_xsd_files`: the lists of the four directories, extended in the
      order DIN 70121, ISO 15118-2, ISO 15118-20, SupportedAppProtocol. */
  method FindAllXsdFiles(listing: string -> Option<seq<string>>) returns (xsdFilePaths: seq<string>)
    ensures xsdFilePaths == FoundIn(listing, SchemaHeader.XsdDirs)
  {
    xsdFilePaths := [];
    var dirName := SchemaHeader.DinDir;
    xsdFilePaths := xsdFilePaths + FindXsdFiles(listing, dirName);
    FoundInExtend(listing, [], dirName);
    dirName := SchemaHeader.Iso2Dir;
    xsdFilePaths := xsdFilePaths + FindXsdFiles(listing, dirName);
    FoundInExtend(listing, [SchemaHeader.DinDir], dirName);
    dirName := SchemaHeader.Iso20Dir;
    xsdFilePaths := xsdFilePaths + FindXsdFiles(listing, dirName);
    FoundInExtend(listing, [SchemaHeader.DinDir, SchemaHeader.Iso2Dir], dirName);
    dirName := SchemaHeader.SapDir;
    xsdFilePaths := xsdFilePaths + FindXsdFiles(listing, dirName);
    FoundInExtend(listing, [SchemaHeader.DinDir, SchemaHeader.Iso2Dir, SchemaHeader.Iso20Dir], dirName);
    assert [] + [SchemaHeader.DinDir] == [SchemaHeader.DinDir];
    assert [SchemaHeader.DinDir] + [SchemaHeader.Iso2Dir] == [SchemaHeader.DinDir, SchemaHeader.Iso2Dir];
    assert [SchemaHeader.DinDir, SchemaHeader.Iso2Dir] + [SchemaHeader.Iso20Dir] ==
           [SchemaHeader.DinDir, SchemaHeader.Iso2Dir, SchemaHeader.Iso20Dir];
    assert [SchemaHeader.DinDir, SchemaHeader.Iso2Dir, SchemaHeader.Iso20Dir] + [SchemaHeader.SapDir] ==
           SchemaHeader.XsdDirs;
  }

  /** A file is found exactly when one of the directories exists and lists it. */
  lemma {:induction false} FoundInMembers(listing: string -> Option<seq<string>>, dirs: seq<string>, path: string)
    ensures path in FoundIn(listing, dirs) <==>
            exists i :: 0 <= i < |dirs| && listing(dirs[i]).Some? && path in listing(dirs[i]).value
    decreases |dirs|
  {
    if dirs != [] {
      var tail := dirs[1..];
      FoundInMembers(listing, tail, path);
      if path in FoundIn(listing, dirs) {
        if path in FoundIn(listing, tail) {
          var i :| 0 <= i < |tail| && listing(tail[i]).Some? && path in listing(tail[i]).value;
          assert dirs[i + 1] == tail[i];
        } else {
          assert listing(dirs[0]).Some? && path in listing(dirs[0]).value;
        }
      }
      if exists i :: 0 <= i < |dirs| && listing(dirs[i]).Some? && path in listing(dirs[i]).value {
        var i :| 0 <= i < |dirs| && listing(dirs[i]).Some? && path in listing(dirs[i]).value;
        if i > 0 {
          assert tail[i - 1] == dirs[i];
        }
      }
    }
  }

  /** A missing directory contributes nothing: the result is that of the
      search without it. */
  lemma MissingDirectory(listing: string -> Option<seq<string>>, dirs: seq<string>, i: nat)
    requires i < |dirs| && listing(dirs[i]).None?
    ensures FoundIn(listing, dirs) == FoundIn(listing, dirs[..i] + dirs[i + 1..])
  {
    var pre, post := dirs[..i], dirs[i..];
    assert dirs == pre + post;
    assert post[0] == dirs[i] && post[1..] == dirs[i + 1..];
    assert FoundIn(listing, post) == FoundIn(listing, dirs[i + 1..]);
    FoundInAppend(listing, pre, post);
    FoundInAppend(listing, pre, dirs[i + 1..]);
  }

  // ---------------------------------------------------------------------
  // The ordered dictionary: import_data_from_all_xsds

  /** A Python `OrderedDict`: its keys in insertion order and their values. */
  datatype OrderedDict<V> = OrderedDict(keys: seq<string>, values: map<string, V>)

  predicate Distinct(s: seq<string>) {
    forall i, j :: 0 <= i < j < |s| ==> s[i] != s[j]
  }

  /** Every key once, and exactly the keys have values. */
  ghost predicate WellFormed<V>(d: OrderedDict<V>) {
    Distinct(d.keys) && forall k :: k in d.values <==> k in d.keys
  }

  /** `d[k] = v`: a new key is appended, an existing key keeps its place and
      takes the new value. */
  function Put<V>(d: OrderedDict<V>, k: string, v: V): (r: OrderedDict<V>)
    requires WellFormed(d)
    ensures WellFormed(r) && r.values == d.values[k := v]
    ensures r.keys == if k in d.keys then d.keys else d.keys + [k]
  {
    if k in d.keys then OrderedDict(d.keys, d.values[k := v])
    else OrderedDict(d.keys + [k], d.values[k := v])
  }

  /** The keys of `s` in the order of their first occurrence. */
  function FirstOccurrences(s: seq<string>): seq<string> {
    if s == [] then []
    else
      var f := FirstOccurrences(s[..|s| - 1]);
      if s[|s| - 1] in f then f else f + [s[|s| - 1]]
  }

  /** Each key once, and exactly the keys of `s`. */
  lemma {:induction false} FirstOccurrencesSpec(s: seq<string>)
    ensures Distinct(FirstOccurrences(s))
    ensures forall x :: x in FirstOccurrences(s) <==> x in s
    decreases |s|
  {
    if s != [] {
      var init := s[..|s| - 1];
      FirstOccurrencesSpec(init);
      assert s == init + [s[|s| - 1]];
    }
  }

  /** The last position of `k` in `s`. */
  function LastIndex(s: seq<string>, k: string): (i: nat)
    requires k in s
    ensures i < |s| && s[i] == k && k !in s[i + 1..]
  {
    if s[|s| - 1] == k then |s| - 1
    else
      assert k in s[..|s| - 1] by {
        var j :| 0 <= j < |s| && s[j] == k;
        assert s[..|s| - 1][j] == k;
      }
      var i := LastIndex(s[..|s| - 1], k);
      assert s[i + 1..] == s[..|s| - 1][i + 1..] + [s[|s| - 1]];
      i
  }

  /** Appending another key leaves the last positions of the others alone. */
  lemma LastIndexExtend(s: seq<string>, x: string, k: string)
    requires k in s && k != x
    ensures LastIndex(s + [x], k) == LastIndex(s, k)
  {
    assert (s + [x])[..|s|] == s;
  }

  /** The array name of every path, in order. */
  function KeysOf(paths: seq<string>): (keys: seq<string>)
    ensures |keys| == |paths|
    ensures forall i :: 0 <= i < |paths| ==> keys[i] == SchemaHeader.KeyFromFilePath(paths[i])
  {
    if paths == [] then [] else KeysOf(paths[..|paths| - 1]) + [SchemaHeader.KeyFromFilePath(paths[|paths| - 1])]
  }

  /** The dictionary after storing every path's serialised schema under its
      array name, one path after the other. */
  function Imported(paths: seq<string>, parse: string -> seq<Hex.uint8>): (d: OrderedDict<seq<Hex.uint8>>)
    ensures WellFormed(d)
  {
    if paths == [] then OrderedDict([], map[])
    else
      var last := paths[|paths| - 1];
      Put(Imported(paths[..|paths| - 1], parse), SchemaHeader.KeyFromFilePath(last), parse(last))
  }

  /** The keys are the array names in the order they were first met. */
  lemma {:induction false} ImportedKeys(paths: seq<string>, parse: string -> seq<Hex.uint8>)
    ensures Imported(paths, parse).keys == FirstOccurrences(KeysOf(paths))
    decreases |paths|
  {
    if paths != [] {
      var init := paths[..|paths| - 1];
      ImportedKeys(init, parse);
      assert KeysOf(paths)[..|init|] == KeysOf(init);
    }
  }

  /** Exactly the array names of the paths have values. */
  lemma ImportedDomain(paths: seq<string>, parse: string -> seq<Hex.uint8>)
    ensures forall k :: k in Imported(paths, parse).values <==> k in KeysOf(paths)
  {
    ImportedKeys(paths, parse);
    FirstOccurrencesSpec(KeysOf(paths));
  }

  /** A name met several times holds the content of the last file of that name. */
  lemma ImportedValues(paths: seq<string>, parse: string -> seq<Hex.uint8>)
    ensures forall k :: k in KeysOf(paths) ==>
              k in Imported(paths, parse).values &&
              Imported(paths, parse).values[k] == parse(paths[LastIndex(KeysOf(paths), k)])
  {
    forall k | k in KeysOf(paths)
      ensures k in Imported(paths, parse).values
      ensures Imported(paths, parse).values[k] == parse(paths[LastIndex(KeysOf(paths), k)])
    {
      ImportedValue(paths, parse, k);
    }
  }

  lemma {:induction false} ImportedValue(paths: seq<string>, parse: string -> seq<Hex.uint8>, k: string)
    requires k in KeysOf(paths)
    ensures k in Imported(paths, parse).values
    ensures Imported(paths, parse).values[k] == parse(paths[LastIndex(KeysOf(paths), k)])
    decreases |paths|
  {
    var init := paths[..|paths| - 1];
    var last := paths[|paths| - 1];
    var ks, x := KeysOf(init), SchemaHeader.KeyFromFilePath(last);
    assert KeysOf(paths) == ks + [x];
    if k == x {
      assert LastIndex(ks + [x], x) == |init|;
    } else {
      assert k in ks by {
        var j :| 0 <= j < |paths| && KeysOf(paths)[j] == k;
        assert j < |init|;
        assert ks[j] == k;
      }
      ImportedValue(init, parse, k);
      LastIndexExtend(ks, x, k);
      assert paths[LastIndex(ks, k)] == init[LastIndex(ks, k)];
    }
  }

  /** `import_data_from_all_xsds`: each file's serialised schema (`parse`,
      lxml's re-serialisation with comments and blank text removed) is stored
      under the file's array name. Keys keep the order in which they were first
      met, and a name met twice keeps the content of its last file. */
  method ImportDataFromAllXsds(filePaths: seq<string>, parse: string -> seq<Hex.uint8>)
    returns (xcdContent: OrderedDict<seq<Hex.uint8>>)
    ensures WellFormed(xcdContent)
    ensures xcdContent.keys == FirstOccurrences(KeysOf(filePaths))
    ensures forall k :: k in xcdContent.values <==> k in KeysOf(filePaths)
    ensures forall k :: k in xcdContent.values ==>
              xcdContent.values[k] == parse(filePaths[LastIndex(KeysOf(filePaths), k)])
  {
    xcdContent := OrderedDict([], map[]);
    for i := 0 to |filePaths|
      invariant xcdContent == Imported(filePaths[..i], parse)
    {
      var fileName, contentBytes := SchemaHeader.KeyFromFilePath(filePaths[i]), parse(filePaths[i]);
      assert filePaths[..i + 1][..i] == filePaths[..i];
      xcdContent := Put(xcdContent, fileName, contentBytes);
    }
    assert filePaths[..|filePaths|] == filePaths;
    ImportedKeys(filePaths, parse);
    ImportedDomain(filePaths, parse);
    ImportedValues(filePaths, parse);
  }

  // ---------------------------------------------------------------------
  // The header text: create_header_info, create_header_zipped_data

  const FileName := "Schemas.h"

  /** `create_header_info`: the banner comment naming the file. */
  function HeaderInfo(): (r: string)
    ensures Contains(r, FileName)
  {
    var head := "/** <!------------------------------------------------------------------------->\n" +
      "*\n" +
      "*  @file\n" +
      "*    ";
    var tail := "\n" +
      "*\n" +
      "*  @note\n" +
      "*    This file has been generated with zip_xsd.py\n" +
      "*\n" +
      "*<!-------------------------------------------------------------------------->*/\n\n";
    ContainsInfix(head, FileName, tail);
    head + FileName + tail
  }

  function Includes(): string {
    "#include <cstdint>\n\n"
  }

  /** `"0x{:02x}".format(x)`: two lower-case, zero-padded hex digits. */
  function HexByte(x: Hex.uint8): (r: string)
    ensures |r| == 4
  {
    "0x" + Hex.ByteToHex(x)
  }

  /** The formatted bytes joined by ", ". */
  function HexElements(b: seq<Hex.uint8>): string {
    if b == [] then ""
    else if |b| == 1 then HexByte(b[0])
    else HexByte(b[0]) + ", " + HexElements(b[1..])
  }

  /** The byte-array initialiser: `{0x78, 0x9c, ...}`. */
  function HexArrayLiteral(b: seq<Hex.uint8>): (r: string)
    ensures |r| == if b == [] then 2 else 6 * |b|
    ensures r[0] == '{' && r[|r| - 1] == '}'
  {
    HexElementsLayout(b);
    "{" + HexElements(b) + "}"
  }

  /** Element k of the joined list sits at offset 6k: "0x", its two digits,
      and then ", " unless it is the last. */
  lemma {:induction false} HexElementsLayout(b: seq<Hex.uint8>)
    ensures |HexElements(b)| == if b == [] then 0 else 6 * |b| - 2
    ensures forall k :: 0 <= k < |b| ==> HexElements(b)[6 * k..6 * k + 4] == HexByte(b[k])
    ensures forall k :: 0 <= k < |b| - 1 ==> HexElements(b)[6 * k + 4..6 * k + 6] == ", "
    decreases |b|
  {
    if |b| > 1 {
      var e := HexElements(b);
      var rest := HexElements(b[1..]);
      HexElementsLayout(b[1..]);
      assert e == HexByte(b[0]) + ", " + rest;
      forall k | 0 < k < |b| ensures e[6 * k..6 * k + 4] == HexByte(b[k]) {
        assert e[6 * k..6 * k + 4] == rest[6 * (k - 1)..6 * (k - 1) + 4];
        assert b[1..][k - 1] == b[k];
      }
      forall k | 0 < k < |b| - 1 ensures e[6 * k + 4..6 * k + 6] == ", " {
        assert e[6 * k + 4..6 * k + 6] == rest[6 * (k - 1) + 4..6 * (k - 1) + 6];
      }
      assert e[0..4] == HexByte(b[0]);
      assert e[4..6] == ", ";
    }
  }

  /** One element of the literal reads back as its byte. */
  lemma HexElementReadsBack(b: seq<Hex.uint8>, k: nat)
    requires k < |b| && |HexElements(b)| == 6 * |b| - 2
    requires HexElements(b)[6 * k..6 * k + 4] == HexByte(b[k])
    ensures HexArrayLiteral(b)[6 * k + 1..6 * k + 3] == "0x"
    ensures Hex.Decode(HexArrayLiteral(b)[6 * k + 3..6 * k + 5]) == Some([b[k]])
  {
    var e, h := HexElements(b), HexByte(b[k]);
    SplitSlice(e, 6 * k, h);
    BracedSlice(e, 6 * k, 6 * k + 2);
    BracedSlice(e, 6 * k + 2, 6 * k + 4);
    assert h[..2] == "0x" && h[2..] == Hex.ByteToHex(b[k]);
    ByteToHexDecodes(b[k]);
  }

  /** The four characters at `i` are "0x" and two digits when `h` is. */
  lemma SplitSlice(e: string, i: nat, h: string)
    requires i + 4 <= |e| && |h| == 4 && e[i..i + 4] == h
    ensures e[i..i + 2] == h[..2] && e[i + 2..i + 4] == h[2..]
  {
  }

  /** Inside the braces, positions shift by one. */
  lemma BracedSlice(e: string, i: nat, j: nat)
    requires i <= j <= |e|
    ensures ("{" + e + "}")[i + 1..j + 1] == e[i..j]
  {
  }

  /** The two digits of one byte decode to that byte. */
  lemma ByteToHexDecodes(x: Hex.uint8)
    ensures Hex.Decode(Hex.ByteToHex(x)) == Some([x])
  {
    assert Hex.Encode([x]) == Hex.Encode([]) + Hex.ByteToHex(x);
    Hex.DecodeEncode([x]);
  }

  /** The literal can be read back: it has room for exactly the bytes, each
      element starts with "0x", and its two digits decode to the byte. */
  lemma HexArrayLiteralReadsBack(b: seq<Hex.uint8>)
    ensures var lit := HexArrayLiteral(b);
            |lit| == (if b == [] then 2 else 6 * |b|) && lit[0] == '{' && lit[|lit| - 1] == '}' &&
            forall k :: 0 <= k < |b| ==>
              lit[6 * k + 1..6 * k + 3] == "0x" && Hex.Decode(lit[6 * k + 3..6 * k + 5]) == Some([b[k]])
  {
    HexElementsLayout(b);
    forall k | 0 <= k < |b|
      ensures HexArrayLiteral(b)[6 * k + 1..6 * k + 3] == "0x"
      ensures Hex.Decode(HexArrayLiteral(b)[6 * k + 3..6 * k + 5]) == Some([b[k]])
    {
      HexElementReadsBack(b, k);
    }
  }

  /** Python's `str(n)` for a natural number. */
  function Decimal(n: nat): (r: string)
    ensures |r| > 0
    ensures forall i :: 0 <= i < |r| ==> '0' <= r[i] <= '9'
  {
    if n < 10 then ["0123456789"[n]] else Decimal(n / 10) + ["0123456789"[n % 10]]
  }

  /** The number a string of decimal digits denotes. */
  function DecimalValue(s: string): nat {
    if s == [] then 0
    else 10 * DecimalValue(s[..|s| - 1]) + (if '0' <= s[|s| - 1] <= '9' then s[|s| - 1] as int - '0' as int else 0)
  }

  /** The rendered number reads back as itself, digits only and without a
      leading zero. */
  lemma {:induction false} DecimalReadsBack(n: nat)
    ensures DecimalValue(Decimal(n)) == n
    ensures forall i :: 0 <= i < |Decimal(n)| ==> '0' <= Decimal(n)[i] <= '9'
    ensures n > 0 ==> Decimal(n)[0] != '0'
  {
    if n >= 10 {
      DecimalReadsBack(n / 10);
      var d := Decimal(n);
      assert d[..|d| - 1] == Decimal(n / 10);
    }
  }

  /** `uint8_t <name>[] = {...};` */
  function ArrayLine(fileName: string, zipped: seq<Hex.uint8>): string {
    "uint8_t " + fileName + "[] = " + HexArrayLiteral(zipped) + ";\n"
  }

  /** `uint16_t <name>_zipped_len = <count>;` and a blank line. */
  function LengthLine(fileName: string, zipped: seq<Hex.uint8>): string {
    "uint16_t " + fileName + "_zipped_len = " + Decimal(|zipped|) + ";\n\n"
  }

  function MaxUnzippedLine(maxLen: nat): string {
    "constexpr uint16_t MAX_UNZIPPED_LEN = " + Decimal(maxLen) + ";\n"
  }

  /** The text written up to and including the first `n` entries, after
      `preamble`. */
  function Written(preamble: string, d: OrderedDict<seq<Hex.uint8>>, compress: seq<Hex.uint8> -> seq<Hex.uint8>, n: nat): (r: string)
    requires WellFormed(d) && n <= |d.keys|
    ensures preamble <= r
  {
    if n == 0 then preamble
    else
      var name := d.keys[n - 1];
      Written(preamble, d, compress, n - 1) + ArrayLine(name, compress(d.values[name])) +
      LengthLine(name, compress(d.values[name]))
  }

  /** The running maximum of the loop: the largest uncompressed length among
      the first `n` entries, 0 when there are none. */
  function MaxUnzippedLen(d: OrderedDict<seq<Hex.uint8>>, n: nat): (r: nat)
    requires WellFormed(d) && n <= |d.keys|
    ensures forall i :: 0 <= i < n ==> |d.values[d.keys[i]]| <= r
  {
    if n == 0 then 0
    else
      var m := MaxUnzippedLen(d, n - 1);
      var len := |d.values[d.keys[n - 1]]|;
      if len > m then len else m
  }

  /** MAX_UNZIPPED_LEN is the largest length: every content fits, one of
      them has exactly that length, and it is 0 when there is none. */
  lemma {:induction false} MaxUnzippedLenIsMaximum(d: OrderedDict<seq<Hex.uint8>>, n: nat)
    requires WellFormed(d) && n <= |d.keys|
    ensures forall i :: 0 <= i < n ==> |d.values[d.keys[i]]| <= MaxUnzippedLen(d, n)
    ensures n == 0 ==> MaxUnzippedLen(d, n) == 0
    ensures n > 0 ==> exists i :: 0 <= i < n && |d.values[d.keys[i]]| == MaxUnzippedLen(d, n)
  {
    if n > 0 {
      MaxUnzippedLenIsMaximum(d, n - 1);
      if |d.values[d.keys[n - 1]]| <= MaxUnzippedLen(d, n - 1) && n > 1 {
        var j :| 0 <= j < n - 1 && |d.values[d.keys[j]]| == MaxUnzippedLen(d, n - 1);
        assert 0 <= j < n && |d.values[d.keys[j]]| == MaxUnzippedLen(d, n);
      }
    }
  }

  /** `create_header_zipped_data`: the banner, the include, two lines per
      schema in key order (its compressed bytes and their count), then the
      largest uncompressed length. `compress` is zlib at level 6. The text is
      returned rather than written to ../src/Schemas.h. */
  method CreateHeaderZippedData(xsdContent: OrderedDict<seq<Hex.uint8>>, compress: seq<Hex.uint8> -> seq<Hex.uint8>)
    returns (schemasFile: string)
    requires WellFormed(xsdContent)
    ensures schemasFile == Written(HeaderInfo() + Includes(), xsdContent, compress, |xsdContent.keys|) +
                           MaxUnzippedLine(MaxUnzippedLen(xsdContent, |xsdContent.keys|))
  {
    schemasFile := HeaderInfo();
    schemasFile := schemasFile + Includes();
    schemasFile := WriteSchemas(schemasFile, xsdContent, compress);
  }

  /** The loop of `create_header_zipped_data` after the preamble: every entry
      in key order, keeping the running maximum of the uncompressed lengths,
      which is written last. */
  method WriteSchemas(preamble: string, xsdContent: OrderedDict<seq<Hex.uint8>>, compress: seq<Hex.uint8> -> seq<Hex.uint8>)
    returns (schemasFile: string)
    requires WellFormed(xsdContent)
    ensures schemasFile == Written(preamble, xsdContent, compress, |xsdContent.keys|) +
                           MaxUnzippedLine(MaxUnzippedLen(xsdContent, |xsdContent.keys|))
  {
    schemasFile := preamble;
    var maxUnzippedLen := 0;
    for i := 0 to |xsdContent.keys|
      invariant schemasFile == Written(preamble, xsdContent, compress, i)
      invariant maxUnzippedLen == MaxUnzippedLen(xsdContent, i)
    {
      schemasFile, maxUnzippedLen := WriteStep(preamble, xsdContent, compress, i, schemasFile, maxUnzippedLen);
    }
    schemasFile := schemasFile + MaxUnzippedLine(maxUnzippedLen);
  }

  /** The body of that loop for entry `i`: its two lines are appended and the
      running maximum takes in its uncompressed length. */
  method WriteStep(preamble: string, xsdContent: OrderedDict<seq<Hex.uint8>>, compress: seq<Hex.uint8> -> seq<Hex.uint8>,
                   i: nat, schemasFile: string, maxUnzippedLen: nat)
    returns (file: string, maxLen: nat)
    requires WellFormed(xsdContent) && i < |xsdContent.keys|
    requires schemasFile == Written(preamble, xsdContent, compress, i)
    requires maxUnzippedLen == MaxUnzippedLen(xsdContent, i)
    ensures file == Written(preamble, xsdContent, compress, i + 1)
    ensures maxLen == MaxUnzippedLen(xsdContent, i + 1)
  {
    var fileName := xsdContent.keys[i];
    var xsdByteArray := xsdContent.values[fileName];
    var stringValueZipped := compress(xsdByteArray);
    file := WriteEntry(schemasFile, fileName, stringValueZipped);
    maxLen := maxUnzippedLen;
    if |xsdByteArray| > maxLen {
      maxLen := |xsdByteArray|;
    }
  }

  /** One loop step's output: the array of compressed bytes, then its length. */
  method WriteEntry(schemasFile: string, fileName: string, stringValueZipped: seq<Hex.uint8>) returns (r: string)
    ensures r == schemasFile + ArrayLine(fileName, stringValueZipped) + LengthLine(fileName, stringValueZipped)
  {
    var xsdZippedHexArray := "{";
    xsdZippedHexArray := xsdZippedHexArray + HexElements(stringValueZipped);
    xsdZippedHexArray := xsdZippedHexArray + "}";
    r := schemasFile + ("uint8_t " + fileName + "[] = " + xsdZippedHexArray + ";\n");
    r := r + ("uint16_t " + fileName + "_zipped_len = " + Decimal(|stringValueZipped|) + ";\n\n");
  }
}
