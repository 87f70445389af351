/** The generator of Schemas.h (scripts/zip_xsd.py): it lists the XSD files of
    four directories, names each file's array after its path, keeps one entry
    per name in insertion order, and writes every compressed schema as a C
    byte-array literal together with its length and the largest uncompressed
    length. Paths follow Windows conventions, as the script's own directory
    names ("XSDs\\DIN_70121") do. The file system, the XML re-serialisation of
    lxml and zlib are parameters. */
module SchemaHeader {
  import opened Text
  import Hex
  import SchemaInput

  // ---------------------------------------------------------------------
  // Array names: create_key_from_file_path

  predicate IsSep(c: char) {
    c == '\\' || c == '/'
  }

  /** `os.path.basename` on Windows: what follows the last '\\' or '/'. */
  function Basename(path: string): (r: string)
    ensures |r| <= |path|
    decreases |path|
  {
    if path == [] || IsSep(path[|path| - 1]) then []
    else Basename(path[..|path| - 1]) + [path[|path| - 1]]
  }

  /** The basename is the longest suffix without a separator. */
  lemma {:induction false} BasenameSpec(path: string)
    ensures var r := Basename(path);
            r == path[|path| - |r|..] &&
            (forall i :: 0 <= i < |r| ==> !IsSep(r[i])) &&
            (|r| < |path| ==> IsSep(path[|path| - |r| - 1]))
    decreases |path|
  {
    if path != [] && !IsSep(path[|path| - 1]) {
      var init := path[..|path| - 1];
      BasenameSpec(init);
      var r0 := Basename(init);
      assert init[|init| - |r0|..] + [path[|path| - 1]] == path[|path| - |r0| - 1..];
    }
  }

  /** `glob` joins a directory and a matched name with a backslash. */
  function Join(dir: string, name: string): string {
    dir + "\\" + name
  }

  lemma {:induction false} BasenameOfJoin(dir: string, name: string)
    requires '\\' !in name && '/' !in name
    ensures Basename(Join(dir, name)) == name
    decreases |name|
  {
    var p := Join(dir, name);
    if name == [] {
      assert p[|p| - 1] == '\\';
    } else {
      var last := name[|name| - 1];
      assert p[|p| - 1] == last && !IsSep(last);
      assert p[..|p| - 1] == Join(dir, name[..|name| - 1]);
      BasenameOfJoin(dir, name[..|name| - 1]);
      assert name == name[..|name| - 1] + [last];
    }
  }

  const XmldsigStem := "xmldsig" + "_" + "core" + "_" + "schema"
  const XmldsigFile := "xmldsig" + "-" + "core" + "-" + "schema" + ".xsd"
  const AppProtocolStem := "V2G_CI_" + "AppProtocol"

  /** The file name without ".xsd" and with '-' turned into '_'. */
  function FileStem(path: string): (r: string)
    ensures '-' !in r
  {
    var name := ReplaceAll(Basename(path), ".xsd", "");
    ReplaceChar(name, '-', '_');
    ReplaceAll(name, "-", "_")
  }

  /** The renaming the containing standard's directory asks for. */
  function DirectoryRename(path: string, key: string): (r: string)
    ensures '-' !in key ==> '-' !in r
  {
    if Contains(path, "ISO_15118_20\\") then
      var k := ReplaceAll(key, "V2G_CI_", "XSD_ISO20_");
      ReplaceKeepsOut(key, "V2G_CI_", "XSD_ISO20_", '-');
      ReplaceKeepsOut(k, "CommonMessages", "CM", '-');
      if Contains(k, "CommonMessages") then ReplaceAll(k, "CommonMessages", "CM") else k
    else if Contains(path, "ISO_15118_2\\") then
      ReplaceKeepsOut(key, "V2G_CI_", "XSD_ISO2_", '-');
      ReplaceAll(key, "V2G_CI_", "XSD_ISO2_")
    else if Contains(path, "DIN_70121\\") then
      ReplaceKeepsOut(key, "V2G_CI_", "XSD_DIN_", '-');
      ReplaceAll(key, "V2G_CI_", "XSD_DIN_")
    else key
  }

  /** `create_key_from_file_path`: the C identifier of a schema's array. */
  function KeyFromFilePath(path: string): string {
    var stem := FileStem(path);
    var key := if stem == XmldsigStem then "XSD_XMLDSIG_CORE" else stem;
    var key' := DirectoryRename(path, key);
    if Contains(key', AppProtocolStem) then ReplaceAll(key', AppProtocolStem, "XSD_SAP") else key'
  }

  /** Every array name is free of '-', as a C identifier must be. */
  lemma KeyHasNoDash(path: string)
    ensures '-' !in KeyFromFilePath(path)
  {
    var stem := FileStem(path);
    var key := if stem == XmldsigStem then "XSD_XMLDSIG_CORE" else stem;
    var key' := DirectoryRename(path, key);
    ReplaceKeepsOut(key', AppProtocolStem, "XSD_SAP", '-');
  }

  const XsdRoot := "XSDs\\"
  const DinDir := XsdRoot + "DIN_70121"
  const Iso2Dir := XsdRoot + "ISO_15118_2"
  const Iso20Dir := XsdRoot + "ISO_15118_20"
  const SapDir := XsdRoot + "V2G_SAP"

  /** The directories `find_all_xsd_files` searches, in its order. */
  const XsdDirs: seq<string> := [DinDir, Iso2Dir, Iso20Dir, SapDir]

  /** A V2G_CI_ file of the schema set: `V2G_CI_<name>.xsd`. */
  function CiFile(name: string): string {
    "V2G_CI_" + name + ".xsd"
  }

  /** The names that follow "V2G_CI_" in the schema set carry none of these. */
  predicate PlainName(name: string) {
    '.' !in name && '-' !in name && '\\' !in name && '/' !in name && '_' !in name && 'V' !in name
  }

  /** Taking ".xsd" off a name that has no other dot. */
  lemma StripXsd(stem: string)
    requires '.' !in stem
    ensures ReplaceAll(stem + ".xsd", ".xsd", "") == stem
  {
    ReplaceSkipsPrefix(stem, ".xsd", ".xsd", "");
    ReplaceLeading([], ".xsd", "");
    assert ".xsd" + [] == ".xsd";
  }

  lemma StemOfCiFile(dir: string, name: string)
    requires PlainName(name)
    ensures FileStem(Join(dir, CiFile(name))) == "V2G_CI_" + name
  {
    var stem := "V2G_CI_" + name;
    BasenameOfJoin(dir, CiFile(name));
    StripXsd(stem);
    AbsentByChar(stem, "-", '-');
    ReplaceAbsent(stem, "-", "_");
  }

  /** Replacing the leading "V2G_CI_" of a stem gives the standard's prefix. */
  lemma RenameCiStem(name: string, prefix: string)
    requires PlainName(name)
    ensures ReplaceAll("V2G_CI_" + name, "V2G_CI_", prefix) == prefix + name
  {
    ReplaceLeading(name, "V2G_CI_", prefix);
    AbsentByChar(name, "V2G_CI_", '_');
    ReplaceAbsent(name, "V2G_CI_", prefix);
  }

  /** A key with no 'V' is left alone by the SupportedAppProtocol rename. */
  lemma NoAppProtocol(key: string)
    requires 'V' !in key
    ensures !Contains(key, AppProtocolStem)
  {
    AbsentByChar(key, AppProtocolStem, 'V');
  }

  /** The key of a path from its parts: the stem (or the signature schema's
      fixed name), the directory's renaming, and the SupportedAppProtocol
      rename. */
  lemma KeyFromParts(path: string, key: string, renamed: string, final: string)
    requires key == if FileStem(path) == XmldsigStem then "XSD_XMLDSIG_CORE" else FileStem(path)
    requires DirectoryRename(path, key) == renamed
    requires final == if Contains(renamed, AppProtocolStem) then ReplaceAll(renamed, AppProtocolStem, "XSD_SAP") else renamed
    ensures KeyFromFilePath(path) == final
  {
  }

  lemma KeyOfStem(path: string, stem: string, renamed: string)
    requires FileStem(path) == stem && stem != XmldsigStem
    requires DirectoryRename(path, stem) == renamed && !Contains(renamed, AppProtocolStem)
    ensures KeyFromFilePath(path) == renamed
  {
    KeyFromParts(path, stem, renamed, renamed);
  }

  lemma RenameUnderDin(path: string, key: string)
    requires !Contains(path, "ISO_15118_20\\") && !Contains(path, "ISO_15118_2\\") && Contains(path, "DIN_70121\\")
    ensures DirectoryRename(path, key) == ReplaceAll(key, "V2G_CI_", "XSD_DIN_")
  {
  }

  lemma RenameUnderIso2(path: string, key: string)
    requires !Contains(path, "ISO_15118_20\\") && Contains(path, "ISO_15118_2\\")
    ensures DirectoryRename(path, key) == ReplaceAll(key, "V2G_CI_", "XSD_ISO2_")
  {
  }

  lemma RenameUnderIso20(path: string, key: string)
    requires Contains(path, "ISO_15118_20\\")
    ensures var k := ReplaceAll(key, "V2G_CI_", "XSD_ISO20_");
            DirectoryRename(path, key) == if Contains(k, "CommonMessages") then ReplaceAll(k, "CommonMessages", "CM") else k
  {
  }

  lemma RenameElsewhere(path: string, key: string)
    requires !Contains(path, "ISO_15118_20\\") && !Contains(path, "ISO_15118_2\\") && !Contains(path, "DIN_70121\\")
    ensures DirectoryRename(path, key) == key
  {
  }

  /** A key with neither 'V' nor 'o' is renamed by no directory. */
  lemma RenameKeeps(path: string, key: string)
    requires 'V' !in key && 'o' !in key
    ensures DirectoryRename(path, key) == key
  {
    AbsentByChar(key, "V2G_CI_", 'V');
    ReplaceAbsent(key, "V2G_CI_", "XSD_ISO20_");
    ReplaceAbsent(key, "V2G_CI_", "XSD_ISO2_");
    ReplaceAbsent(key, "V2G_CI_", "XSD_DIN_");
    AbsentByChar(key, "CommonMessages", 'o');
  }

  /** Without an 'O', a path names neither ISO 15118 directory. */
  lemma NotUnderIso(path: string)
    requires 'O' !in path
    ensures !Contains(path, "ISO_15118_20\\") && !Contains(path, "ISO_15118_2\\")
  {
    AbsentByChar(path, "ISO_15118_20\\", 'O');
    AbsentByChar(path, "ISO_15118_2\\", 'O');
  }

  lemma UnderDin(file: string)
    requires 'O' !in file
    ensures !Contains(Join(DinDir, file), "ISO_15118_20\\") && !Contains(Join(DinDir, file), "ISO_15118_2\\")
    ensures Contains(Join(DinDir, file), "DIN_70121\\")
  {
    NotUnderIso(Join(DinDir, file));
    assert Join(DinDir, file) == "XSDs\\" + "DIN_70121\\" + file;
    ContainsInfix("XSDs\\", "DIN_70121\\", file);
  }

  lemma UnderIso2(file: string)
    requires '0' !in file
    ensures !Contains(Join(Iso2Dir, file), "ISO_15118_20\\") && Contains(Join(Iso2Dir, file), "ISO_15118_2\\")
  {
    AbsentByChar(Join(Iso2Dir, file), "ISO_15118_20\\", '0');
    assert Join(Iso2Dir, file) == "XSDs\\" + "ISO_15118_2\\" + file;
    ContainsInfix("XSDs\\", "ISO_15118_2\\", file);
  }

  lemma UnderIso20(file: string)
    ensures Contains(Join(Iso20Dir, file), "ISO_15118_20\\")
  {
    assert Join(Iso20Dir, file) == "XSDs\\" + "ISO_15118_20\\" + file;
    ContainsInfix("XSDs\\", "ISO_15118_20\\", file);
  }

  lemma UnderSap(file: string)
    requires 'O' !in file && '7' !in file
    ensures !Contains(Join(SapDir, file), "ISO_15118_20\\") && !Contains(Join(SapDir, file), "ISO_15118_2\\")
    ensures !Contains(Join(SapDir, file), "DIN_70121\\")
  {
    NotUnderIso(Join(SapDir, file));
    AbsentByChar(Join(SapDir, file), "DIN_70121\\", '7');
  }

  /** A DIN 70121 schema `V2G_CI_<name>.xsd` becomes `XSD_DIN_<name>`. */
  lemma DinKey(name: string)
    requires PlainName(name) && 'O' !in name
    ensures KeyFromFilePath(Join(DinDir, CiFile(name))) == "XSD_DIN_" + name
  {
    var path, stem := Join(DinDir, CiFile(name)), "V2G_CI_" + name;
    StemOfCiFile(DinDir, name);
    DinRenamed(name);
    NoAppProtocol("XSD_DIN_" + name);
    assert stem != XmldsigStem by { assert 'V' !in XmldsigStem; }
    KeyOfStem(path, stem, "XSD_DIN_" + name);
  }

  lemma DinRenamed(name: string)
    requires PlainName(name) && 'O' !in name
    ensures DirectoryRename(Join(DinDir, CiFile(name)), "V2G_CI_" + name) == "XSD_DIN_" + name
  {
    UnderDin(CiFile(name));
    RenameUnderDin(Join(DinDir, CiFile(name)), "V2G_CI_" + name);
    RenameCiStem(name, "XSD_DIN_");
  }

  /** An ISO 15118-2 schema `V2G_CI_<name>.xsd` becomes `XSD_ISO2_<name>`. */
  lemma Iso2Key(name: string)
    requires PlainName(name) && '0' !in name
    ensures KeyFromFilePath(Join(Iso2Dir, CiFile(name))) == "XSD_ISO2_" + name
  {
    var path, stem := Join(Iso2Dir, CiFile(name)), "V2G_CI_" + name;
    StemOfCiFile(Iso2Dir, name);
    Iso2Renamed(name);
    NoAppProtocol("XSD_ISO2_" + name);
    assert stem != XmldsigStem by { assert 'V' !in XmldsigStem; }
    KeyOfStem(path, stem, "XSD_ISO2_" + name);
  }

  lemma Iso2Renamed(name: string)
    requires PlainName(name) && '0' !in name
    ensures DirectoryRename(Join(Iso2Dir, CiFile(name)), "V2G_CI_" + name) == "XSD_ISO2_" + name
  {
    UnderIso2(CiFile(name));
    RenameUnderIso2(Join(Iso2Dir, CiFile(name)), "V2G_CI_" + name);
    RenameCiStem(name, "XSD_ISO2_");
  }

  /** The ISO 15118-20 renaming of `XSD_ISO20_<name>`: CommonMessages is
      shortened to CM, any other name (without an 'M') is kept. */
  lemma ShortenCommonMessages(name: string)
    requires 'M' !in name || name == "CommonMessages"
    ensures var k := "XSD_ISO20_" + name;
            (if Contains(k, "CommonMessages") then ReplaceAll(k, "CommonMessages", "CM") else k) ==
            "XSD_ISO20_" + (if name == "CommonMessages" then "CM" else name)
  {
    var k := "XSD_ISO20_" + name;
    if name == "CommonMessages" {
      assert k == "XSD_ISO20_" + name + [];
      ContainsInfix("XSD_ISO20_", name, []);
      ReplaceSkipsPrefix("XSD_ISO20_", name, name, "CM");
      ReplaceLeading([], name, "CM");
      assert name + [] == name;
    } else {
      AbsentByChar(k, "CommonMessages", 'M');
    }
  }

  /** An ISO 15118-20 schema `V2G_CI_<name>.xsd` becomes `XSD_ISO20_<name>`,
      with CommonMessages shortened to CM. */
  lemma Iso20Key(name: string)
    requires PlainName(name) && ('M' !in name || name == "CommonMessages")
    ensures KeyFromFilePath(Join(Iso20Dir, CiFile(name))) ==
            "XSD_ISO20_" + (if name == "CommonMessages" then "CM" else name)
  {
    var path, stem := Join(Iso20Dir, CiFile(name)), "V2G_CI_" + name;
    var key := "XSD_ISO20_" + (if name == "CommonMessages" then "CM" else name);
    StemOfCiFile(Iso20Dir, name);
    Iso20Renamed(name, key);
    NoAppProtocol(key);
    assert stem != XmldsigStem by { assert 'V' !in XmldsigStem; }
    KeyOfStem(path, stem, key);
  }

  lemma Iso20Renamed(name: string, key: string)
    requires PlainName(name) && ('M' !in name || name == "CommonMessages")
    requires key == "XSD_ISO20_" + (if name == "CommonMessages" then "CM" else name)
    ensures DirectoryRename(Join(Iso20Dir, CiFile(name)), "V2G_CI_" + name) == key
  {
    UnderIso20(CiFile(name));
    RenameCiStem(name, "XSD_ISO20_");
    ShortenCommonMessages(name);
    RenameUnderIso20(Join(Iso20Dir, CiFile(name)), "V2G_CI_" + name);
  }

  /** A stem that is exactly the SupportedAppProtocol name is replaced whole. */
  lemma RenameAppProtocol(stem: string)
    requires stem == AppProtocolStem
    ensures Contains(stem, AppProtocolStem) && ReplaceAll(stem, AppProtocolStem, "XSD_SAP") == "XSD_SAP"
  {
    assert stem == [] + stem + [];
    ContainsInfix([], stem, []);
    ReplaceLeading([], stem, "XSD_SAP");
    assert stem + [] == stem;
  }

  /** The SupportedAppProtocol schema `V2G_CI_<name>.xsd` becomes `XSD_SAP`. */
  lemma SapKey(name: string)
    requires name == "AppProtocol"
    ensures KeyFromFilePath(Join(SapDir, CiFile(name))) == "XSD_SAP"
  {
    var path, stem := Join(SapDir, CiFile(name)), "V2G_CI_" + name;
    SapStem(name);
    SapRename(name);
    RenameAppProtocol(stem);
    KeyFromParts(path, stem, stem, "XSD_SAP");
  }

  lemma SapStem(name: string)
    requires name == "AppProtocol"
    ensures FileStem(Join(SapDir, CiFile(name))) == "V2G_CI_" + name
    ensures "V2G_CI_" + name != XmldsigStem
  {
    StemOfCiFile(SapDir, name);
    assert 'V' !in XmldsigStem;
  }

  lemma SapRename(name: string)
    requires name == "AppProtocol"
    ensures DirectoryRename(Join(SapDir, CiFile(name)), "V2G_CI_" + name) == "V2G_CI_" + name
  {
    UnderSap(CiFile(name));
    RenameElsewhere(Join(SapDir, CiFile(name)), "V2G_CI_" + name);
  }

  /** Turning the two dashes of `a-b-c` into underscores. */
  lemma Dashes(a: string, b: string, c: string)
    requires '-' !in a && '-' !in b && '-' !in c
    ensures ReplaceAll(a + "-" + b + "-" + c, "-", "_") == a + "_" + b + "_" + c
  {
    Regroup(a, "-", b, "-", c);
    DashThen(a, b + ("-" + c));
    LastDash(b, c);
    Regroup(a, "_", b, "_", c);
  }

  /** Concatenation regrouped to the right. */
  lemma Regroup(a: string, x: string, b: string, y: string, c: string)
    ensures a + x + b + y + c == a + (x + (b + (y + c)))
  {
  }

  /** The dash of `b-c` becomes an underscore. */
  lemma LastDash(b: string, c: string)
    requires '-' !in b && '-' !in c
    ensures ReplaceAll(b + ("-" + c), "-", "_") == b + ("_" + c)
  {
    DashThen(b, c);
    AbsentByChar(c, "-", '-');
    ReplaceAbsent(c, "-", "_");
  }

  /** The first dash after a dash-free part becomes an underscore. */
  lemma DashThen(a: string, rest: string)
    requires '-' !in a
    ensures ReplaceAll(a + ("-" + rest), "-", "_") == a + ("_" + ReplaceAll(rest, "-", "_"))
  {
    ReplaceSkipsPrefix(a, "-" + rest, "-", "_");
    ReplaceLeading(rest, "-", "_");
  }

  /** `xmldsig-core-schema.xsd` has the stem `xmldsig_core_schema`. */
  lemma XmldsigFileStem(dir: string, a: string, b: string, c: string)
    requires a == "xmldsig" && b == "core" && c == "schema"
    ensures FileStem(Join(dir, a + "-" + b + "-" + c + ".xsd")) == a + "_" + b + "_" + c
  {
    var file := a + "-" + b + "-" + c + ".xsd";
    BasenameOfJoin(dir, file);
    StripXsd(a + "-" + b + "-" + c);
    Dashes(a, b, c);
  }

  /** The signature schema is `XSD_XMLDSIG_CORE` in whichever directory it lies. */
  lemma XmldsigKey(dir: string)
    ensures KeyFromFilePath(Join(dir, XmldsigFile)) == "XSD_XMLDSIG_CORE"
  {
    XmldsigKeyIs(dir, "XSD_XMLDSIG_CORE");
  }

  lemma XmldsigKeyIs(dir: string, key: string)
    requires key == "XSD_XMLDSIG_CORE"
    ensures KeyFromFilePath(Join(dir, XmldsigFile)) == key
  {
    var path := Join(dir, XmldsigFile);
    XmldsigStemIs(dir);
    XmldsigKeyKept(path, key);
    KeyFromParts(path, key, key, key);
  }

  lemma XmldsigStemIs(dir: string)
    ensures FileStem(Join(dir, XmldsigFile)) == XmldsigStem
  {
    XmldsigFileStem(dir, "xmldsig", "core", "schema");
  }

  lemma XmldsigKeyKept(path: string, key: string)
    requires key == "XSD_XMLDSIG_CORE"
    ensures DirectoryRename(path, key) == key && !Contains(key, AppProtocolStem)
  {
    RenameKeeps(path, key);
    NoAppProtocol(key);
  }

  /** The directory in which the generator finds the file behind each array
      the validator reads (the signature schema: ISO 15118-20's copy). */
  function SourceDir(id: SchemaInput.SchemaId): string {
    match id
    case Sap => SapDir
    case Iso20Dc | Iso20CommonTypes | Iso20Cm | Iso20Acdp | Iso20Ac | Iso20Wpt | XmldsigCore => Iso20Dir
    case Iso2MsgBody | Iso2MsgDataTypes | Iso2MsgDef | Iso2MsgHeader => Iso2Dir
    case DinMsgBody | DinMsgDataTypes | DinMsgDef | DinMsgHeader => DinDir
  }

  /** What follows "V2G_CI_" in the schema's file name. */
  function CiName(id: SchemaInput.SchemaId): string {
    match id
    case Sap => "AppProtocol"
    case Iso20Dc => "DC"
    case Iso20CommonTypes => "CommonTypes"
    case Iso20Cm => "CommonMessages"
    case Iso20Acdp => "ACDP"
    case Iso20Ac => "AC"
    case Iso20Wpt => "WPT"
    case XmldsigCore => ""
    case Iso2MsgBody | DinMsgBody => "MsgBody"
    case Iso2MsgDataTypes | DinMsgDataTypes => "MsgDataTypes"
    case Iso2MsgDef | DinMsgDef => "MsgDef"
    case Iso2MsgHeader | DinMsgHeader => "MsgHeader"
  }

  function SourceFile(id: SchemaInput.SchemaId): string {
    if id == SchemaInput.XmldsigCore then XmldsigFile else CiFile(CiName(id))
  }

  function GeneratorPath(id: SchemaInput.SchemaId): string {
    Join(SourceDir(id), SourceFile(id))
  }

  predicate IsDin(id: SchemaInput.SchemaId) {
    id.DinMsgBody? || id.DinMsgDataTypes? || id.DinMsgDef? || id.DinMsgHeader?
  }

  predicate IsIso2(id: SchemaInput.SchemaId) {
    id.Iso2MsgBody? || id.Iso2MsgDataTypes? || id.Iso2MsgDef? || id.Iso2MsgHeader?
  }

  predicate IsIso20(id: SchemaInput.SchemaId) {
    id.Iso20Dc? || id.Iso20CommonTypes? || id.Iso20Cm? || id.Iso20Acdp? || id.Iso20Ac? || id.Iso20Wpt?
  }

  /** A letter other than 'V'. */
  predicate NameLetter(c: char) {
    ('A' <= c <= 'Z' && c != 'V') || ('a' <= c <= 'z')
  }

  /** A name spelled only in such letters is plain. */
  lemma PlainLiteral(name: string, lit: string)
    requires name == lit
    requires forall i :: 0 <= i < |lit| ==> NameLetter(lit[i])
    ensures PlainName(name)
  {
    forall c | !NameLetter(c)
      ensures c !in name
    {
    }
    assert !NameLetter('.') && !NameLetter('-') && !NameLetter('\\');
    assert !NameLetter('/') && !NameLetter('_') && !NameLetter('V');
  }

  lemma DinNames(id: SchemaInput.SchemaId)
    requires IsDin(id)
    ensures PlainName(CiName(id)) && 'O' !in CiName(id)
  {
    DinNamesPlain(id);
  }

  lemma DinNamesPlain(id: SchemaInput.SchemaId)
    requires IsDin(id)
    ensures PlainName(CiName(id))
  {
    match id
    case DinMsgBody => PlainLiteral(CiName(id), "MsgBody");
    case DinMsgDataTypes => PlainLiteral(CiName(id), "MsgDataTypes");
    case DinMsgDef => PlainLiteral(CiName(id), "MsgDef");
    case DinMsgHeader => PlainLiteral(CiName(id), "MsgHeader");
  }

  lemma DinPath(id: SchemaInput.SchemaId)
    requires IsDin(id)
    ensures GeneratorPath(id) == Join(DinDir, CiFile(CiName(id)))
  {
  }

  lemma DinArray(id: SchemaInput.SchemaId)
    requires IsDin(id)
    ensures SchemaInput.ArrayName(id) == "XSD_DIN_" + CiName(id)
  {
  }

  lemma DinKeys(id: SchemaInput.SchemaId)
    requires IsDin(id)
    ensures KeyFromFilePath(GeneratorPath(id)) == SchemaInput.ArrayName(id)
  {
    DinNames(id);
    DinPath(id);
    DinArray(id);
    DinKey(CiName(id));
  }

  lemma Iso2Names(id: SchemaInput.SchemaId)
    requires IsIso2(id)
    ensures PlainName(CiName(id)) && '0' !in CiName(id)
  {
    Iso2NamesPlain(id);
  }

  lemma Iso2NamesPlain(id: SchemaInput.SchemaId)
    requires IsIso2(id)
    ensures PlainName(CiName(id))
  {
    match id
    case Iso2MsgBody => PlainLiteral(CiName(id), "MsgBody");
    case Iso2MsgDataTypes => PlainLiteral(CiName(id), "MsgDataTypes");
    case Iso2MsgDef => PlainLiteral(CiName(id), "MsgDef");
    case Iso2MsgHeader => PlainLiteral(CiName(id), "MsgHeader");
  }

  lemma Iso2Path(id: SchemaInput.SchemaId)
    requires IsIso2(id)
    ensures GeneratorPath(id) == Join(Iso2Dir, CiFile(CiName(id)))
  {
  }

  lemma Iso2Array(id: SchemaInput.SchemaId)
    requires IsIso2(id)
    ensures SchemaInput.ArrayName(id) == "XSD_ISO2_" + CiName(id)
  {
  }

  lemma Iso2Keys(id: SchemaInput.SchemaId)
    requires IsIso2(id)
    ensures KeyFromFilePath(GeneratorPath(id)) == SchemaInput.ArrayName(id)
  {
    Iso2Names(id);
    Iso2Path(id);
    Iso2Array(id);
    Iso2Key(CiName(id));
  }

  lemma Iso20Names(id: SchemaInput.SchemaId)
    requires IsIso20(id)
    ensures PlainName(CiName(id)) && ('M' !in CiName(id) || CiName(id) == "CommonMessages")
  {
    Iso20NamesPlain(id);
  }

  lemma Iso20NamesPlain(id: SchemaInput.SchemaId)
    requires IsIso20(id)
    ensures PlainName(CiName(id))
  {
    match id
    case Iso20Dc => PlainLiteral(CiName(id), "DC");
    case Iso20CommonTypes => PlainLiteral(CiName(id), "CommonTypes");
    case Iso20Cm => PlainLiteral(CiName(id), "CommonMessages");
    case Iso20Acdp => PlainLiteral(CiName(id), "ACDP");
    case Iso20Ac => PlainLiteral(CiName(id), "AC");
    case Iso20Wpt => PlainLiteral(CiName(id), "WPT");
  }

  lemma Iso20Path(id: SchemaInput.SchemaId)
    requires IsIso20(id)
    ensures GeneratorPath(id) == Join(Iso20Dir, CiFile(CiName(id)))
  {
  }

  lemma Iso20Array(id: SchemaInput.SchemaId)
    requires IsIso20(id)
    ensures SchemaInput.ArrayName(id) ==
            "XSD_ISO20_" + (if CiName(id) == "CommonMessages" then "CM" else CiName(id))
  {
  }

  lemma Iso20Keys(id: SchemaInput.SchemaId)
    requires IsIso20(id)
    ensures KeyFromFilePath(GeneratorPath(id)) == SchemaInput.ArrayName(id)
  {
    Iso20Names(id);
    Iso20Path(id);
    Iso20Array(id);
    Iso20Key(CiName(id));
  }

  /** The generated header declares every array the schema loader of the
      validator refers to, under the name the loader uses. */
  lemma KeysMatchLoader(id: SchemaInput.SchemaId)
    ensures KeyFromFilePath(GeneratorPath(id)) == SchemaInput.ArrayName(id)
  {
    if IsDin(id) {
      DinKeys(id);
    } else if IsIso2(id) {
      Iso2Keys(id);
    } else if IsIso20(id) {
      Iso20Keys(id);
    } else if id == SchemaInput.Sap {
      SapKey(CiName(id));
    } else {
      XmldsigKey(SourceDir(id));
    }
  }

}
