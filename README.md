# V2G library cores in Dafny

This project models four small cores of the V2G support libraries of the
dsV2Gshark dissector and proves properties of them:

- **Hex codec** (`Utils.cpp`): `hex_str_to_uint8` decodes an even-length
  string of hex digits, in either case, into bytes. `uint8_to_hex_string`
  writes each byte as two zero-padded lower-case digits (module `Hex`,
  file `hex.dfy`).
- **Embedded-schema input callbacks and the validation rule**
  (`XmlValidator.cpp`).
  - `xsd_match`, `xsd_open`, `xsd_read` and `xsd_close` serve the schemas
    compiled into `Schemas.h` to libxml2 through the two process-wide
    cursors `rlen` and `plen`. They are the class `SchemaInput.InputCallbacks`
    in `schema_input.dfy`.
  - `XmlValidator::init_validators` and `XmlValidator::validate_xml` pick a
    schema context from the message namespace, read the document and turn
    the outcome into a verdict and an error message. They are the class
    `Validation.XmlValidator` in `validation.dfy`.
- **Lua bindings** (`LuaLibV2G.cpp`): the schema fallback of
  `decodeV2GExi`, the result of `decodeV2GAuto`, the verdict and namespace
  stripping of `validateXml`, and the PEM armour `getX509Infos` puts around
  a certificate body (section 5.1 of RFC 7468). These are in module
  `LuaBinding`, file `lua_binding.dfy`.
- **The generator of `Schemas.h`** (`scripts/zip_xsd.py`).
  - Module `SchemaHeader` (`zip_xsd.dfy`) holds the array names derived from
    file paths. It also proves that those names are exactly the ones
    `XmlValidator.cpp` refers to.
  - Module `SchemaHeaderText` (`zip_header.dfy`) holds the rest:
    - the directory search;
    - the ordered dictionary of serialised schemas;
    - the header text with its byte-array literals, lengths and
      `MAX_UNZIPPED_LEN`.

Module `Text` (`text.dfy`) holds the string helpers the others share:
- C-string reads up to a NUL;
- `std::string::find`;
- Python's `in` and `str.replace`.

Several things are parameters rather than code:
- foreign code: libxml2, the EXI decoder, `unzip_data`, lxml and zlib;
- the file system.

A C `NULL` string or context is `None`. Everything is unbounded: `int`,
`nat` and sequences.

## Model

| member | source | states |
|---|---|---|
| Hex.HexStrToUint8 | V2G_Libraries/v2gLib/src/Utils.cpp:29-64 | for a C string (no NUL before its end): NULL for a NULL string; otherwise an array exactly when the string decodes, and the array holds the decoded bytes (the loop adds each nibble shifted into a zeroed array) |
| Hex.Decode | V2G_Libraries/v2gLib/src/Utils.cpp:29-64 | an odd length never decodes; a decoding has half as many bytes as the string has characters |
| Hex.DecodeSpec | V2G_Libraries/v2gLib/src/Utils.cpp:31-61 | decoding fails exactly on an odd length or a non-hex character; on success there are len/2 bytes and byte k is 16·value(s[2k]) + value(s[2k+1]), high nibble first (so the empty string gives zero bytes) |
| Hex.DecodeIgnoresCase | V2G_Libraries/v2gLib/src/Utils.cpp:49-54 | upper- and lower-case digits decode alike: lowering a string's letters does not change what it decodes to |
| Hex.NibbleIgnoresCase | V2G_Libraries/v2gLib/src/Utils.cpp:49-54 | a letter A-F and its lower-case form have the same nibble value |
| Hex.ByteToHex | V2G_Libraries/v2gLib/src/Utils.cpp:70-74 | a byte is printed as exactly two hex digits whose values give the byte back |
| Hex.HexDigit | V2G_Libraries/v2gLib/src/Utils.cpp:70-74 | the digit printed for a value below 16 denotes that value and is never an upper-case letter |
| Hex.Encode | V2G_Libraries/v2gLib/src/Utils.cpp:66-78 | 2·n characters, and characters 2i and 2i+1 are the high and low digit of byte i, in input order |
| Hex.Uint8ToHexString | V2G_Libraries/v2gLib/src/Utils.cpp:66-78 | the loop's string is the encoding of the first n bytes |
| Hex.EncodeDigits | V2G_Libraries/v2gLib/src/Utils.cpp:66-78 | the encoder writes hex digits only |
| Hex.DecodeEncode | V2G_Libraries/v2gLib/src/Utils.cpp:29-78 | round trip: decoding the encoder's output gives back the bytes |
| Hex.EncodeDecode | V2G_Libraries/v2gLib/src/Utils.cpp:29-78 | the other direction: re-encoding a decodable string gives that string with its letters in lower case |
| SchemaInput.Match | V2G_Libraries/v2gLib/src/XmlValidator.cpp:158-171 | 1 exactly for a non-NULL URI whose first eight characters are "schemas/", 0 otherwise |
| SchemaInput.SchemaForUri | V2G_Libraries/v2gLib/src/XmlValidator.cpp:50-131 | a schema is found only for a URI under "schemas/" |
| SchemaInput.UriTable | V2G_Libraries/v2gLib/src/XmlValidator.cpp:50-131 | `xsd_open` finds a schema exactly for the eighteen listed URIs, every one of them is claimed by `xsd_match`, and the XML-Signature schema is found under exactly its three aliases |
| SchemaInput.UriTableRoundTrip | V2G_Libraries/v2gLib/src/XmlValidator.cpp:50-128 | every embedded schema is found under its own URI |
| SchemaInput.UriTableAliases | V2G_Libraries/v2gLib/src/XmlValidator.cpp:50-131 | a URI leads to a schema only when it is that schema's URI, or one of the XML-Signature aliases |
| SchemaInput.KnownUriFound | V2G_Libraries/v2gLib/src/XmlValidator.cpp:50-128 | each listed URI leads to a schema: its own one, or the XML-Signature schema for an alias |
| SchemaInput.UriOf | V2G_Libraries/v2gLib/src/XmlValidator.cpp:50-128 | every schema's URI lies under "schemas/" |
| SchemaInput.InputCallbacks.constructor | V2G_Libraries/v2gLib/src/XmlValidator.cpp:32-33 | both cursors start at 0 |
| SchemaInput.InputCallbacks.Prepare | V2G_Libraries/v2gLib/src/XmlValidator.cpp:35-40 | the unpacked schema becomes the stream and `rlen` its C-string length; `plen` is untouched |
| SchemaInput.InputCallbacks.Open | V2G_Libraries/v2gLib/src/XmlValidator.cpp:42-132 | a NULL URI returns NULL and changes nothing; any other URI resets `plen`, then either starts the stream of the schema the table names (with nothing delivered yet) or returns NULL with `rlen` cleared |
| SchemaInput.InputCallbacks.Close | V2G_Libraries/v2gLib/src/XmlValidator.cpp:134-139 | returns 0 and clears `rlen`, leaving `plen` |
| SchemaInput.InputCallbacks.Read | V2G_Libraries/v2gLib/src/XmlValidator.cpp:141-156 | -1 and nothing changed for a NULL context or buffer or a negative length; otherwise copies and returns min(len, rlen) characters from `plen` on, moves both cursors by that count (so rlen+plen is kept), keeps the buffer beyond the chunk, and successive chunks continue each other; 0 comes back for a positive length exactly when the whole schema has been delivered |
| Validation.SlotForNamespace | V2G_Libraries/v2gLib/src/XmlValidator.cpp:232-263 | a context is selected only by its own namespace constant |
| Validation.SlotDispatch | V2G_Libraries/v2gLib/src/XmlValidator.cpp:232-263 | each of the eight namespace constants selects its own context, and no other string selects one |
| Validation.SchemaUrlsEmbedded | V2G_Libraries/v2gLib/src/XmlValidator.cpp:201-208 | each schema `init_validators` compiles is claimed by `xsd_match` and found by `xsd_open` |
| Validation.CreateParser | V2G_Libraries/v2gLib/src/XmlValidator.cpp:178-191 | a context exactly when the schema compiles, and it is the context of that schema |
| Validation.XmlValidator.constructor | V2G_Libraries/v2gLib/src/XmlValidator.h:26-33 | every context starts out NULL |
| Validation.XmlValidator.InitValidators | V2G_Libraries/v2gLib/src/XmlValidator.cpp:193-209 | each context is the result of compiling its schema: NULL when the schema does not compile |
| Validation.ReadFrom | V2G_Libraries/v2gLib/src/XmlValidator.cpp:275-280 | the loop ends with 0 or with the value some read returned; it can end on a 1 only with a schema context, at a read that raised a schema error |
| Validation.FinalRet | V2G_Libraries/v2gLib/src/XmlValidator.cpp:265-281 | `ret` is -1 when no reader was created; otherwise it is where the reading loop ended (Validation.ReadFrom) |
| Validation.ReadFromFirstStop | V2G_Libraries/v2gLib/src/XmlValidator.cpp:275-280 | the reading loop stops at the first read that returns something other than 1 or raises a schema error, and `ret` is that read's value |
| Validation.UnvalidatedIgnoresSchemaErrors | V2G_Libraries/v2gLib/src/XmlValidator.cpp:270-280 | without a schema context the schema error flag never stops the loop |
| Validation.X509PrefixLength | V2G_Libraries/v2gLib/src/XmlValidator.cpp:28-29 | the `strncmp` bound 62 is the length of the X509SerialNumber prefix |
| Validation.Judge | V2G_Libraries/v2gLib/src/XmlValidator.cpp:283-306 | valid exactly when reading ended with 0 or the last message starts with the X509SerialNumber prefix; otherwise at most `size` characters of the message, all of it when it fits |
| Validation.SchemaErrorRejects | V2G_Libraries/v2gLib/src/XmlValidator.cpp:270-301 | with a context, a schema error on a read that returns 1 makes the document invalid unless the message is the X509SerialNumber one |
| Validation.SchemaErrorAtEndAccepted | V2G_Libraries/v2gLib/src/XmlValidator.cpp:275-306 | with a context, a schema error on the read that returns 0 (the end of the document) is not looked at: the document is valid |
| Validation.XmlValidator.ValidateXml | V2G_Libraries/v2gLib/src/XmlValidator.cpp:225-309 | returns the verdict of `Judge` for the run under the selected context; on an invalid verdict the message is copied to the front of `errorOut` and the rest of the buffer is kept |
| LuaBinding.DecodeV2GExi | V2G_Libraries/v2gLib/src/LuaLibV2G.cpp:145-180 | pushes one decoding together with the schema that produced it; success exactly when one attempt succeeded; the requested schema wins when it succeeds; when it fails and the SupportedAppProtocol schema succeeds, that decoding is reported under NAMESPACE_SAP; when both fail, the first decoding is reported (its XML, the requested schema and its error code) and the second error is dropped |
| LuaBinding.DecodeSapNoFallback | V2G_Libraries/v2gLib/src/LuaLibV2G.cpp:150-171 | asking for the SupportedAppProtocol schema reports the first decoding as it is |
| LuaBinding.DecodeV2GExiAuto | V2G_Libraries/v2gLib/src/LuaLibV2G.cpp:73-92 | three values always; three nils exactly on a decoder error; otherwise the XML, the schema the decoder chose and error code 0 |
| LuaBinding.StripNamespace | V2G_Libraries/v2gLib/src/LuaLibV2G.cpp:111-117 | the message never gets longer |
| LuaBinding.StripNamespaceBlock | V2G_Libraries/v2gLib/src/LuaLibV2G.cpp:111-117 | in `a{b}c`, where those braces are the first ones, `{b}` is removed |
| LuaBinding.StripNamespaceKeeps | V2G_Libraries/v2gLib/src/LuaLibV2G.cpp:111-117 | with no '{' before the first '}', the message is unchanged |
| LuaBinding.ErrorBuffer | V2G_Libraries/v2gLib/src/LuaLibV2G.cpp:101-103 | the 512-character buffer starts with what `validate_xml` copied |
| LuaBinding.LongMessageOverreads | V2G_Libraries/v2gLib/src/LuaLibV2G.cpp:101-111 | a message of 512 characters or more leaves no terminator in the buffer, so `std::string(error)` reads past it |
| LuaBinding.LongMessageExample | V2G_Libraries/v2gLib/src/LuaLibV2G.cpp:101-111 | a concrete run: a 600-character libxml message reaches the over-read |
| LuaBinding.ErrorString | V2G_Libraries/v2gLib/src/LuaLibV2G.cpp:111 | the bounded read of the buffer never goes beyond it |
| LuaBinding.ErrorStringRecoversMessage | V2G_Libraries/v2gLib/src/LuaLibV2G.cpp:101-111 | with the bounded read, the text is exactly the copied message |
| LuaBinding.Validate | V2G_Libraries/v2gLib/src/LuaLibV2G.cpp:94-131 | an exception pushes false and "internal validation error"; otherwise `true` alone for a valid verdict, or `false` with the copied message minus its first `{...}` block, the message read from the buffer by the bounded read (see LuaBinding.Validate under Left out) |
| LuaBinding.PemCertificate | V2G_Libraries/v2gLib/src/LuaLibV2G.cpp:37-46 | the text handed to the X.509 parser starts with the PEM header line, ends with the footer and has the body in between |
| LuaBinding.PemRoundTrip | V2G_Libraries/v2gLib/src/LuaLibV2G.cpp:42-44 | taking the armour off gives back the body |
| SchemaHeader.Basename | V2G_Libraries/v2gLib/scripts/zip_xsd.py:38 | the basename is never longer than the path (what it is: SchemaHeader.BasenameSpec) |
| SchemaHeader.BasenameSpec | V2G_Libraries/v2gLib/scripts/zip_xsd.py:38 | the basename is the longest suffix of the path without a separator |
| SchemaHeader.BasenameOfJoin | V2G_Libraries/v2gLib/scripts/zip_xsd.py:38 | the basename of a directory joined with a name is that name |
| SchemaHeader.StemOfCiFile | V2G_Libraries/v2gLib/scripts/zip_xsd.py:38 | `V2G_CI_<name>.xsd` has the stem `V2G_CI_<name>` (".xsd" removed, no dash to replace) |
| SchemaHeader.XmldsigFileStem | V2G_Libraries/v2gLib/scripts/zip_xsd.py:38 | `xmldsig-core-schema.xsd` has the stem `xmldsig_core_schema` |
| SchemaHeader.FileStem | V2G_Libraries/v2gLib/scripts/zip_xsd.py:38 | no '-' is left: each became '_' |
| SchemaHeader.DirectoryRename | V2G_Libraries/v2gLib/scripts/zip_xsd.py:42-49 | the directory renaming brings in no '-' |
| SchemaHeader.KeyHasNoDash | V2G_Libraries/v2gLib/scripts/zip_xsd.py:33-54 | an array name holds no '-', as a C identifier must not |
| SchemaHeader.XmldsigKey | V2G_Libraries/v2gLib/scripts/zip_xsd.py:38-40 | the signature schema is named `XSD_XMLDSIG_CORE` in whichever directory it lies |
| SchemaHeader.Iso20Key | V2G_Libraries/v2gLib/scripts/zip_xsd.py:42-45 | under ISO_15118_20, `V2G_CI_<name>.xsd` becomes `XSD_ISO20_<name>`, with CommonMessages shortened to CM |
| SchemaHeader.Iso2Key | V2G_Libraries/v2gLib/scripts/zip_xsd.py:46-47 | under ISO_15118_2, `V2G_CI_<name>.xsd` becomes `XSD_ISO2_<name>` (the ISO_15118_20 test does not fire) |
| SchemaHeader.DinKey | V2G_Libraries/v2gLib/scripts/zip_xsd.py:48-49 | under DIN_70121, `V2G_CI_<name>.xsd` becomes `XSD_DIN_<name>` |
| SchemaHeader.SapKey | V2G_Libraries/v2gLib/scripts/zip_xsd.py:51-52 | `V2G_CI_AppProtocol.xsd` under V2G_SAP becomes `XSD_SAP` |
| SchemaHeader.RenameKeeps | V2G_Libraries/v2gLib/scripts/zip_xsd.py:42-49 | no directory renames a key without a 'V' or an 'o' (so it holds neither `V2G_CI_` nor `CommonMessages`) |
| SchemaHeader.KeysMatchLoader | V2G_Libraries/v2gLib/scripts/zip_xsd.py:33-54 | every array `xsd_open` reads is generated under the name it uses, from the file of its schema |
| SchemaHeaderText.FindXsdFiles | V2G_Libraries/v2gLib/scripts/zip_xsd.py:82-91 | nothing for a missing directory, otherwise glob's list |
| SchemaHeaderText.FindAllXsdFiles | V2G_Libraries/v2gLib/scripts/zip_xsd.py:94-120 | the list is the search of DIN 70121, ISO 15118-2, ISO 15118-20 and V2G_SAP in that order |
| SchemaHeaderText.FoundInAppend | V2G_Libraries/v2gLib/scripts/zip_xsd.py:101-118 | files of earlier directories come before those of later ones |
| SchemaHeaderText.FoundInMembers | V2G_Libraries/v2gLib/scripts/zip_xsd.py:82-120 | a file is found exactly when one searched directory exists and lists it |
| SchemaHeaderText.MissingDirectory | V2G_Libraries/v2gLib/scripts/zip_xsd.py:87-88 | a missing directory contributes nothing |
| SchemaHeaderText.Put | V2G_Libraries/v2gLib/scripts/zip_xsd.py:77 | `d[k] = v` on an OrderedDict: a new key is appended, an existing key keeps its place, and the value is replaced |
| SchemaHeaderText.KeysOf | V2G_Libraries/v2gLib/scripts/zip_xsd.py:75-76 | one array name per path, in order |
| SchemaHeaderText.FirstOccurrencesSpec | V2G_Libraries/v2gLib/scripts/zip_xsd.py:74-77 | the key order holds each name once, and exactly the names met |
| SchemaHeaderText.Imported | V2G_Libraries/v2gLib/scripts/zip_xsd.py:74-77 | the result is a well-formed ordered dictionary: each key once, and exactly the keys have values |
| SchemaHeaderText.ImportedKeys | V2G_Libraries/v2gLib/scripts/zip_xsd.py:74-77 | the dictionary's keys are the array names in the order they were first met |
| SchemaHeaderText.ImportedDomain | V2G_Libraries/v2gLib/scripts/zip_xsd.py:74-77 | exactly the array names of the paths have values |
| SchemaHeaderText.ImportedValues | V2G_Libraries/v2gLib/scripts/zip_xsd.py:74-77 | a name met several times holds the content of the last file of that name |
| SchemaHeaderText.ImportDataFromAllXsds | V2G_Libraries/v2gLib/scripts/zip_xsd.py:68-79 | the loop builds a well-formed dictionary with those keys, that domain and those values |
| SchemaHeaderText.HeaderInfo | V2G_Libraries/v2gLib/scripts/zip_xsd.py:123-137 | the banner names the generated file `Schemas.h` |
| SchemaHeaderText.HexByte | V2G_Libraries/v2gLib/scripts/zip_xsd.py:155 | every formatted byte is four characters long |
| SchemaHeaderText.HexElementsLayout | V2G_Libraries/v2gLib/scripts/zip_xsd.py:154-156 | the joined list is 6n-2 characters long (0 when empty): element k sits at offset 6k and is followed by ", " unless it is the last |
| SchemaHeaderText.HexArrayLiteral | V2G_Libraries/v2gLib/scripts/zip_xsd.py:153-157 | the literal is braced, two characters for no bytes and six per byte otherwise |
| SchemaHeaderText.HexArrayLiteralReadsBack | V2G_Libraries/v2gLib/scripts/zip_xsd.py:153-157 | the literal is braced, has room for exactly the bytes, and each element is "0x" and two digits that decode to its byte |
| SchemaHeaderText.Decimal | V2G_Libraries/v2gLib/scripts/zip_xsd.py:160 | `str(n)` is a non-empty string of decimal digits |
| SchemaHeaderText.DecimalReadsBack | V2G_Libraries/v2gLib/scripts/zip_xsd.py:160 | the emitted length is decimal digits without a leading zero that denote the compressed byte count |
| SchemaHeaderText.MaxUnzippedLen | V2G_Libraries/v2gLib/scripts/zip_xsd.py:149-163 | the running maximum after n entries is at least each of their uncompressed lengths |
| SchemaHeaderText.MaxUnzippedLenIsMaximum | V2G_Libraries/v2gLib/scripts/zip_xsd.py:149-163 | the running maximum bounds every uncompressed length, equals one of them, and is 0 when there are no schemas |
| SchemaHeaderText.Written | V2G_Libraries/v2gLib/scripts/zip_xsd.py:145-161 | the text written so far starts with the preamble: the loop only appends |
| SchemaHeaderText.WriteEntry | V2G_Libraries/v2gLib/scripts/zip_xsd.py:153-161 | one schema adds its byte-array line and then its length line |
| SchemaHeaderText.WriteStep | V2G_Libraries/v2gLib/scripts/zip_xsd.py:150-163 | one loop turn takes the text and the running maximum from entry i to entry i+1 |
| SchemaHeaderText.WriteSchemas | V2G_Libraries/v2gLib/scripts/zip_xsd.py:149-166 | after the loop the text holds the lines of every entry in key order, followed by the MAX_UNZIPPED_LEN line with the largest length |
| SchemaHeaderText.CreateHeaderZippedData | V2G_Libraries/v2gLib/scripts/zip_xsd.py:140-166 | the header text is the banner, the include, the entries in key order and the MAX_UNZIPPED_LEN line |
| Text.UntilNul | V2G_Libraries/v2gLib/src/LuaLibV2G.cpp:98-99 | what a `const char *` reader sees: a NUL-free prefix of the buffer, ending at its first NUL when it has one |
| Text.FindChar | V2G_Libraries/v2gLib/src/LuaLibV2G.cpp:112-113 | `std::string::find`: the index of the first occurrence, and npos exactly when the character is absent |
| Text.ReplaceAbsent | V2G_Libraries/v2gLib/scripts/zip_xsd.py:38-52 | `str.replace` of a pattern that does not occur changes nothing |
| Text.ReplaceLeading | V2G_Libraries/v2gLib/scripts/zip_xsd.py:38-52 | an occurrence at the front is replaced and the scan resumes after it |
| Text.ReplaceSkipsPrefix | V2G_Libraries/v2gLib/scripts/zip_xsd.py:38-52 | a prefix without the pattern's first character is copied unchanged, and the rest is replaced on its own |
| Text.ReplaceLength | V2G_Libraries/v2gLib/scripts/zip_xsd.py:38-52 | a replacement no longer than the pattern never lengthens the text, and one of the same length keeps its length |
| Text.ReplaceChar | V2G_Libraries/v2gLib/scripts/zip_xsd.py:38 | replacing one character by another maps every position on its own, keeping the length |
| Text.ReplaceKeepsOut | V2G_Libraries/v2gLib/scripts/zip_xsd.py:38-52 | replacing brings in no character that neither the text nor the replacement holds |

## Left out

- `unzip_data`, zlib, lxml and libxml2 are not part of this model. An unpacked schema, a compressed byte string, a re-serialised XSD and the outcome of reading a document under a context are all parameters. Schema compilation (`create_parser`) is a predicate on the schema URL.
- `init_validators` calls `xmlInitParser` and registers the callbacks, exiting with status 1 when registration fails. The registration and the exit are not modelled. `cleanup_validators` only calls into libxml2 and is not modelled.
- `xsd_close` frees the buffer. Memory ownership and freeing are not modelled, and neither is the array `hex_str_to_uint8` leaks when it returns NULL part-way.
- `xmlGetLastError` is taken to return a message. The NULL it can return, which `validate_xml` would dereference, is not modelled.
- `validate_xml` does not NUL-terminate what it copies. The model keeps that: the rest of `errorOut` is left as it was. This is what leads to the finding below.
- The Lua C API is a sequence of pushed values.
  - `luaL_checkstring` raising a Lua error on a missing argument is not modelled.
  - An exception in `l_validate` is a boolean parameter, because what can throw there (allocation, libxml2) is not part of the model.
- The EXI decoder (`decode_message`, `decode_message_auto_schema`) is a function parameter. `EXI_ERROR__NO_ERROR` is taken as 0, which is what the `if (result_decode.errn)` test of `l_decodeV2GExi` relies on.
- `get_cert_info` and the values `l_getX509Infos` pushes come from GnuTLS and are not modelled. Only the PEM text handed to it is.
- The file system is a parameter. The directory listing of `find_xsd_files` is a function from a directory to None (missing) or to glob's matches in glob's order. The "does not exist" message printed there and the file name printed in the writer loop are left out.
- The text of `Schemas.h` is returned rather than written to `../src/Schemas.h`.
- Paths follow Windows conventions: `glob` joins with a backslash and `basename` splits at '\\' and '/'. Drive letters and UNC prefixes in `ntpath.basename` are not modelled.
- The `uint16_t` type of `..._zipped_len` and `MAX_UNZIPPED_LEN` is not modelled: the generator writes the numbers unbounded, as Python does, and their range is not checked.
- SchemaInput.InputCallbacks.Read: requires that libxml2 passes back the context `xsd_open` returned and a buffer with room for the chunk. The C code cannot check either.
- The `xsd_open` table has eighteen `strcmp` entries for sixteen distinct schemas, because the XML-Signature schema appears under three URIs. The model follows the code's eighteen entries.
- LuaBinding.Validate: reads the error buffer with the bounded read LuaBinding.ErrorString, the corrected member of the finding below. As written, `std::string(error)` reads past the buffer for a message of 512 characters or more (LuaBinding.LongMessageOverreads); for such a message the model pushes the message cut to 512 characters, where the code has undefined behaviour.
- LuaBinding.StripNamespace: its own contract only bounds the length. What the stripping does is stated by LuaBinding.StripNamespaceBlock and LuaBinding.StripNamespaceKeeps.
- SchemaHeaderText.HexByte: its own contract gives only the length. Its content is stated through SchemaHeaderText.HexArrayLiteralReadsBack.

## Findings

| source | as written | input that shows it | evidently intended | confidence | as-written member | corrected member |
|---|---|---|---|---|---|---|
| V2G_Libraries/v2gLib/src/LuaLibV2G.cpp:101-111 | `validate_xml` copies up to all 512 characters of the message into `char error[512]` and writes no terminator; `std::string(error)` then reads until a NUL | a libxml message of 512 characters or more (e.g. 600 'x' characters on the first read): the buffer holds no NUL and the read runs past the array | read at most the buffer's 512 characters (`std::string(error, strnlen(error, sizeof error))`), so the text is the message cut to the buffer | not executed | LuaBinding.LongMessageOverreads | LuaBinding.ErrorStringRecoversMessage |
