/**
 * Decomposition of a module specifier into the module, an optional
 * protocol and, for `data:` URIs (section 3 of RFC 2397), an optional
 * media type: the contract of `extractModuleAttributes`.
 */
module ModuleAttributes {
  import opened Wrappers

  /** `{module, protocol?, mimeType?}`; `module` is a keyword here, so the
      field is `moduleName`. */
  datatype Attributes = Attributes(moduleName: string, protocol: Option<string>, mimeType: Option<string>)

  const DataProtocol := "data:"

  predicate IsLetter(c: char)
  {
    'a' <= c <= 'z' || 'A' <= c <= 'Z'
  }

  predicate IsSchemeChar(c: char)
  {
    IsLetter(c) || '0' <= c <= '9'
  }

  /** A protocol: a scheme token (a letter, then letters and digits)
      followed by its `:`. */
  predicate IsProtocol(p: string)
  {
    && |p| >= 2
    && p[|p| - 1] == ':'
    && IsLetter(p[0])
    && forall i :: 0 <= i < |p| - 1 ==> IsSchemeChar(p[i])
  }

  /** The length of the leading run of scheme characters. */
  function SchemeCharsLength(s: string): (n: nat)
    ensures n <= |s|
    ensures forall i :: 0 <= i < n ==> IsSchemeChar(s[i])
    ensures n < |s| ==> !IsSchemeChar(s[n])
  {
    if s != [] && IsSchemeChar(s[0]) then 1 + SchemeCharsLength(s[1..]) else 0
  }

  /** The protocol the specifier starts with, if any. Since `:` is not a
      scheme character, at most one prefix of a string is a protocol, and
      this is it. */
  function LeadingProtocol(s: string): (r: Option<string>)
    ensures r.Some? ==> IsProtocol(r.value) && r.value <= s
    ensures r.None? ==> forall n :: 0 <= n <= |s| ==> !IsProtocol(s[..n])
  {
    var n := SchemeCharsLength(s);
    if 0 < n < |s| && IsLetter(s[0]) && s[n] == ':' then
      Some(s[..n + 1])
    else
      assert forall m :: 0 <= m <= |s| && IsProtocol(s[..m]) ==> m == n + 1;
      None
  }

  /** The index of the first occurrence of `c`, if any. */
  function FirstIndexOf(s: string, c: char): (r: Option<nat>)
    ensures r.Some? ==> r.value < |s| && s[r.value] == c && c !in s[..r.value]
    ensures r.None? ==> c !in s
  {
    if s == [] then None
    else if s[0] == c then Some(0)
    else match FirstIndexOf(s[1..], c)
      case Some(i) => assert s[..i + 1] == [s[0]] + s[1..][..i]; Some(i + 1)
      case None => None
  }

  /** `extractModuleAttributes`: a recognised leading protocol is split
      off; for `data:` a non-empty media type before the first comma is
      split off too; anything else is left as the module. */
  function ExtractModuleAttributes(specifier: string, protocols: set<string>): (r: Attributes)
    ensures r.protocol.None? ==> r.moduleName == specifier && r.mimeType.None?
    ensures r.protocol.Some? ==> r.protocol.value in protocols && IsProtocol(r.protocol.value) && r.protocol.value <= specifier
    ensures r.mimeType.Some? ==> r.protocol == Some(DataProtocol) && r.mimeType.value != "" && ',' !in r.mimeType.value
  {
    var p := LeadingProtocol(specifier);
    if p.Some? && p.value in protocols then
      var rest := specifier[|p.value|..];
      if p.value == DataProtocol then
        match FirstIndexOf(rest, ',')
        case Some(i) =>
          if i > 0 then Attributes(rest[i + 1..], p, Some(rest[..i])) else Attributes(rest, p, None)
        case None => Attributes(rest, p, None)
      else
        Attributes(rest, p, None)
    else
      Attributes(specifier, None, None)
  }

  /** The specifier the attributes describe: protocol, then media type and
      its comma, then module. */
  function Render(a: Attributes): string
  {
    (if a.protocol.Some? then a.protocol.value else "")
    + (if a.mimeType.Some? then a.mimeType.value + "," else "")
    + a.moduleName
  }

  /** The media type, its comma and the module of a `data:` URI put back
      together give what followed `data:`. */
  lemma RenderDataPayload(specifier: string, protocols: set<string>, rest: string)
    requires LeadingProtocol(specifier) == Some(DataProtocol) && DataProtocol in protocols
    requires rest == specifier[|DataProtocol|..]
    ensures var a := ExtractModuleAttributes(specifier, protocols);
            (if a.mimeType.Some? then a.mimeType.value + "," else "") + a.moduleName == rest
  {
    match FirstIndexOf(rest, ',')
    case Some(i) =>
      if i > 0 {
        assert rest == rest[..i] + "," + rest[i + 1..];
      }
    case None =>
  }

  /** A recognised protocol other than `data:` and the module put back
      together give the input. */
  lemma RenderOtherProtocol(specifier: string, protocols: set<string>, p: string)
    requires LeadingProtocol(specifier) == Some(p) && p in protocols && p != DataProtocol
    ensures Render(ExtractModuleAttributes(specifier, protocols)) == specifier
  {
    var rest := specifier[|p|..];
    assert ExtractModuleAttributes(specifier, protocols) == Attributes(rest, Some(p), None);
    assert specifier == p + rest;
  }

  /** Nothing is lost: the attributes put back together give the input. */
  lemma RenderExtract(specifier: string, protocols: set<string>)
    ensures Render(ExtractModuleAttributes(specifier, protocols)) == specifier
  {
    var p := LeadingProtocol(specifier);
    if p.Some? && p.value in protocols {
      if p.value == DataProtocol {
        var rest := specifier[|DataProtocol|..];
        RenderDataPayload(specifier, protocols, rest);
        assert specifier == DataProtocol + rest;
      } else {
        RenderOtherProtocol(specifier, protocols, p.value);
      }
    }
  }

  /** The attributes `extractModuleAttributes` can produce: a recognised
      protocol or none; a media type only on `data:`, non-empty and without
      a comma; a module without protocol that does not itself start with a
      recognised protocol; a `data:` module without media type that has no
      comma before its first character. */
  predicate Canonical(a: Attributes, protocols: set<string>)
  {
    match a.protocol
    case None =>
      a.mimeType.None? && !(LeadingProtocol(a.moduleName).Some? && LeadingProtocol(a.moduleName).value in protocols)
    case Some(p) =>
      && p in protocols && IsProtocol(p)
      && (a.mimeType.Some? ==> p == DataProtocol && a.mimeType.value != "" && ',' !in a.mimeType.value)
      && (p == DataProtocol && a.mimeType.None? ==> ',' !in a.moduleName || a.moduleName[0] == ',')
  }

  /** Everything `extractModuleAttributes` produces is canonical. */
  lemma ExtractCanonical(specifier: string, protocols: set<string>)
    ensures Canonical(ExtractModuleAttributes(specifier, protocols), protocols)
  {
  }

  /** A protocol followed by anything is recognised as that protocol. */
  lemma {:induction false} LeadingProtocolOf(p: string, rest: string)
    requires IsProtocol(p)
    ensures LeadingProtocol(p + rest) == Some(p)
  {
    var s := p + rest;
    var n := SchemeCharsLength(s);
    assert forall i :: 0 <= i < |p| - 1 ==> IsSchemeChar(s[i]);
    assert !IsSchemeChar(s[|p| - 1]);
    SchemeCharsLengthOfRun(s, |p| - 1);
    assert s[..|p|] == p;
  }

  /** A run of scheme characters ended by a non-scheme character has
      exactly that length. */
  lemma {:induction false} SchemeCharsLengthOfRun(s: string, n: nat)
    requires n < |s| && !IsSchemeChar(s[n])
    requires forall i :: 0 <= i < n ==> IsSchemeChar(s[i])
    ensures SchemeCharsLength(s) == n
  {
    if n > 0 {
      SchemeCharsLengthOfRun(s[1..], n - 1);
    }
  }

  /** Canonical attributes survive the round trip the other way. */
  lemma ExtractRender(a: Attributes, protocols: set<string>)
    requires Canonical(a, protocols)
    ensures ExtractModuleAttributes(Render(a), protocols) == a
  {
    var s := Render(a);
    match a.protocol
    case None =>
      assert s == a.moduleName;
    case Some(p) =>
      var rest := (if a.mimeType.Some? then a.mimeType.value + "," else "") + a.moduleName;
      assert s == p + rest;
      LeadingProtocolOf(p, rest);
      assert s[|p|..] == rest;
      if p == DataProtocol {
        match a.mimeType
        case Some(m) =>
          FirstIndexOfAfterWord(m, a.moduleName, ',');
          assert rest[..|m|] == m && rest[|m| + 1..] == a.moduleName;
        case None =>
          if ',' in a.moduleName {
            assert FirstIndexOf(rest, ',') == Some(0);
          }
      }
  }

  /** In `w + [c] + t` with `c` not in `w`, the first `c` ends `w`. */
  lemma {:induction false} FirstIndexOfAfterWord(w: string, t: string, c: char)
    requires c !in w
    ensures FirstIndexOf(w + [c] + t, c) == Some(|w|)
  {
    if w != [] {
      FirstIndexOfAfterWord(w[1..], t, c);
      assert (w + [c] + t)[1..] == w[1..] + [c] + t;
    }
  }

  /** A specifier that does not start with a protocol is its own module. */
  lemma ExtractWithoutProtocol(specifier: string, protocols: set<string>)
    requires forall n :: 0 <= n <= |specifier| ==> !IsProtocol(specifier[..n])
    ensures ExtractModuleAttributes(specifier, protocols) == Attributes(specifier, None, None)
  {
  }

  /** A recognised protocol other than `data:` is split off and the rest,
      whatever it holds, is the module. */
  lemma ExtractRecognisedProtocol(p: string, rest: string, protocols: set<string>)
    requires IsProtocol(p) && p in protocols && p != DataProtocol
    ensures ExtractModuleAttributes(p + rest, protocols) == Attributes(rest, Some(p), None)
  {
    LeadingProtocolOf(p, rest);
    assert (p + rest)[|p|..] == rest;
  }

  /** An unrecognised protocol leaves the whole specifier as the module. */
  lemma ExtractUnrecognisedProtocol(p: string, rest: string, protocols: set<string>)
    requires IsProtocol(p) && p !in protocols
    ensures ExtractModuleAttributes(p + rest, protocols) == Attributes(p + rest, None, None)
  {
    LeadingProtocolOf(p, rest);
  }

  /** `data:<mimeType>,<payload>` with a non-empty, comma-free media type
      splits into all three parts; the payload may hold further commas. */
  lemma ExtractDataWithMimeType(mimeType: string, payload: string, protocols: set<string>)
    requires DataProtocol in protocols && mimeType != "" && ',' !in mimeType
    ensures ExtractModuleAttributes(DataProtocol + mimeType + "," + payload, protocols)
            == Attributes(payload, Some(DataProtocol), Some(mimeType))
  {
    var rest := mimeType + "," + payload;
    assert DataProtocol + mimeType + "," + payload == DataProtocol + rest;
    LeadingProtocolOf(DataProtocol, rest);
    assert (DataProtocol + rest)[|DataProtocol|..] == rest;
    FirstIndexOfAfterWord(mimeType, payload, ',');
    assert rest[..|mimeType|] == mimeType && rest[|mimeType| + 1..] == payload;
  }

  /** `data:,<payload>`: with an empty media type nothing is split and the
      comma stays in the module. */
  lemma ExtractDataEmptyMimeType(rest: string, protocols: set<string>)
    requires DataProtocol in protocols && |rest| > 0 && rest[0] == ','
    ensures ExtractModuleAttributes(DataProtocol + rest, protocols) == Attributes(rest, Some(DataProtocol), None)
  {
    LeadingProtocolOf(DataProtocol, rest);
    assert (DataProtocol + rest)[|DataProtocol|..] == rest;
  }

  /** A `data:` URI without any comma has no media type: everything after
      `data:` is the module, verbatim. */
  lemma ExtractDataWithoutComma(rest: string, protocols: set<string>)
    requires DataProtocol in protocols && ',' !in rest
    ensures ExtractModuleAttributes(DataProtocol + rest, protocols) == Attributes(rest, Some(DataProtocol), None)
  {
    LeadingProtocolOf(DataProtocol, rest);
    assert (DataProtocol + rest)[|DataProtocol|..] == rest;
  }

  /** The recognised protocols the test cases rely on. */
  predicate KnownProtocols(protocols: set<string>)
  {
    "node:" in protocols && DataProtocol in protocols && "nod:" !in protocols
  }

  /** A specifier without a protocol is left alone. */
  lemma LeavesPlainSpecifierAlone(protocols: set<string>)
    ensures ExtractModuleAttributes("protodash", protocols) == Attributes("protodash", None, None)
  {
    assert forall i :: 0 <= i < 9 ==> "protodash"[i] != ':';
  }

  /** A recognised protocol is split off with its colon. */
  lemma ExtractsNodeProtocol(protocols: set<string>)
    requires KnownProtocols(protocols)
    ensures ExtractModuleAttributes("node:fs", protocols) == Attributes("fs", Some("node:"), None)
  {
    assert IsProtocol("node:");
    assert "node:"[0] != DataProtocol[0];
    assert "node:fs" == "node:" + "fs";
    ExtractRecognisedProtocol("node:", "fs", protocols);
  }

  /** An unrecognised scheme leaves the specifier intact. */
  lemma LeavesUnknownProtocolAlone(protocols: set<string>)
    requires KnownProtocols(protocols)
    ensures ExtractModuleAttributes("nod:fs", protocols) == Attributes("nod:fs", None, None)
  {
    assert IsProtocol("nod:");
    assert "nod:fs" == "nod:" + "fs";
    ExtractUnrecognisedProtocol("nod:", "fs", protocols);
  }

  /** The empty specifier is the empty module. */
  lemma ExtractsEmptySpecifier(protocols: set<string>)
    ensures ExtractModuleAttributes("", protocols) == Attributes("", None, None)
  {
  }

  /** A `data:` URI with a media type yields protocol, media type and the
      text after the comma. */
  lemma ExtractsDataMimeType(protocols: set<string>)
    requires KnownProtocols(protocols)
    ensures ExtractModuleAttributes("data:application/json,gegevens.json", protocols)
            == Attributes("gegevens.json", Some("data:"), Some("application/json"))
  {
    assert "data:application/json,gegevens.json" == DataProtocol + "application/json" + "," + "gegevens.json";
    assert forall i :: 0 <= i < 16 ==> "application/json"[i] != ',';
    ExtractDataWithMimeType("application/json", "gegevens.json", protocols);
  }

  /** A `data:` URI with an empty media type keeps the comma in the module. */
  lemma KeepsCommaOfEmptyMimeType(protocols: set<string>)
    requires KnownProtocols(protocols)
    ensures ExtractModuleAttributes("data:,gegevens.json", protocols) == Attributes(",gegevens.json", Some("data:"), None)
  {
    assert "data:,gegevens.json" == DataProtocol + ",gegevens.json";
    ExtractDataEmptyMimeType(",gegevens.json", protocols);
  }

  /** A `data:` URI without a comma is module text after `data:`, verbatim. */
  lemma KeepsMistypedSeparator(protocols: set<string>)
    requires KnownProtocols(protocols)
    ensures ExtractModuleAttributes("data:application/json;gegevens.json", protocols)
            == Attributes("application/json;gegevens.json", Some("data:"), None)
  {
    assert "data:application/json;gegevens.json" == DataProtocol + "application/json;gegevens.json";
    assert forall i :: 0 <= i < 30 ==> "application/json;gegevens.json"[i] != ',';
    ExtractDataWithoutComma("application/json;gegevens.json", protocols);
  }

  /** The media type ends at the first comma, parameters included. */
  lemma SplitsAtFirstComma(protocols: set<string>)
    requires KnownProtocols(protocols)
    ensures ExtractModuleAttributes("data:text/plain;base64,QQ", protocols)
            == Attributes("QQ", Some("data:"), Some("text/plain;base64"))
  {
    assert "data:text/plain;base64,QQ" == DataProtocol + "text/plain;base64" + "," + "QQ";
    assert forall i :: 0 <= i < 17 ==> "text/plain;base64"[i] != ',';
    ExtractDataWithMimeType("text/plain;base64", "QQ", protocols);
  }

  /** A trailing comma after a media type leaves an empty module. */
  lemma KeepsEmptyPayload(protocols: set<string>)
    requires KnownProtocols(protocols)
    ensures ExtractModuleAttributes("data:a,", protocols) == Attributes("", Some("data:"), Some("a"))
  {
    assert "data:a," == DataProtocol + "a" + "," + "";
    ExtractDataWithMimeType("a", "", protocols);
  }
}
