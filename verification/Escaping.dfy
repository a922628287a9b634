/**
 The chained-replace escapers of cli/src/device_service.rs: XML text, systemd
 `Environment=` values and PowerShell single-quoted strings. Each chain of
 whole-string replacements is shown to be one per-character substitution and
 is inverted by a decoder written from the format's own rules.
 */
module Escaping {
  import opened Common
  import opened WindowsQuoting

  /** Replaces every occurrence of one character by a string. */
  function Replace(s: string, c: char, text: string): string {
    if s == "" then ""
    else (if s[0] == c then text else [s[0]]) + Replace(s[1..], c, text)
  }

  /** The single-pass form: each character is substituted once. */
  function Substitute(s: string, image: char -> string): string {
    if s == "" then "" else image(s[0]) + Substitute(s[1..], image)
  }

  lemma {:induction false} ReplaceConcat(a: string, b: string, c: char, text: string)
    ensures Replace(a + b, c, text) == Replace(a, c, text) + Replace(b, c, text)
  {
    if a == "" {
      assert a + b == b;
    } else {
      assert (a + b)[1..] == a[1..] + b;
      ReplaceConcat(a[1..], b, c, text);
    }
  }

  /** One more replacement after a substitution is again a substitution. */
  lemma {:induction false} ReplaceAfterSubstitute(s: string, f: char -> string,
      g: char -> string, c: char, text: string)
    requires forall x :: Replace(f(x), c, text) == g(x)
    ensures Replace(Substitute(s, f), c, text) == Substitute(s, g)
  {
    if s != "" {
      ReplaceConcat(f(s[0]), Substitute(s[1..], f), c, text);
      ReplaceAfterSubstitute(s[1..], f, g, c, text);
    }
  }

  lemma {:induction false} ReplaceIsSubstitute(s: string, f: char -> string, c: char, text: string)
    requires forall x :: f(x) == if x == c then text else [x]
    ensures Replace(s, c, text) == Substitute(s, f)
  {
    if s != "" {
      ReplaceIsSubstitute(s[1..], f, c, text);
    }
  }

  // -------------------------------------------------------------------- XML

  function XmlEscape(value: string): string {
    var amp := Replace(value, '&', "&amp;");
    var lt := Replace(amp, '<', "&lt;");
    var gt := Replace(lt, '>', "&gt;");
    var quot := Replace(gt, '\"', "&quot;");
    Replace(quot, '\'', "&apos;")
  }

  /** The five predefined entities of section 4.6 of XML 1.0. */
  function XmlImage(c: char): string {
    match c
    case '&' => "&amp;"
    case '<' => "&lt;"
    case '>' => "&gt;"
    case '\"' => "&quot;"
    case '\'' => "&apos;"
    case _ => [c]
  }

  /** The first `n` replacements of the chain, applied to one character. */
  function XmlImageUpTo(c: char, n: nat): string {
    if c == '&' && n >= 1 then "&amp;"
    else if c == '<' && n >= 2 then "&lt;"
    else if c == '>' && n >= 3 then "&gt;"
    else if c == '\"' && n >= 4 then "&quot;"
    else if c == '\'' && n >= 5 then "&apos;"
    else [c]
  }

  lemma {:induction false} ReplaceNone(s: string, c: char, text: string)
    requires c !in s
    ensures Replace(s, c, text) == s
  {
    if s != "" {
      ReplaceNone(s[1..], c, text);
    }
  }

  function XmlTarget(n: nat): (char, string)
    requires 1 <= n <= 5
  {
    match n
    case 1 => ('&', "&amp;")
    case 2 => ('<', "&lt;")
    case 3 => ('>', "&gt;")
    case 4 => ('\"', "&quot;")
    case _ => ('\'', "&apos;")
  }

  lemma XmlChainStep(x: char, n: nat)
    requires 2 <= n <= 5
    ensures Replace(XmlImageUpTo(x, n - 1), XmlTarget(n).0, XmlTarget(n).1) == XmlImageUpTo(x, n)
  {
    var t := XmlTarget(n).0;
    if x == t {
      assert XmlImageUpTo(x, n - 1) == [x];
      assert [x][1..] == "";
    } else {
      ReplaceNone(XmlImageUpTo(x, n - 1), t, XmlTarget(n).1);
    }
  }

  lemma XmlChain(s: string, n: nat)
    requires 2 <= n <= 5
    ensures Replace(Substitute(s, c => XmlImageUpTo(c, n - 1)), XmlTarget(n).0, XmlTarget(n).1)
         == Substitute(s, c => XmlImageUpTo(c, n))
  {
    forall x { XmlChainStep(x, n); }
    ReplaceAfterSubstitute(s, c => XmlImageUpTo(c, n - 1), c => XmlImageUpTo(c, n), XmlTarget(n).0, XmlTarget(n).1);
  }

  lemma {:induction false} SubstituteExtensional(s: string, f: char -> string, g: char -> string)
    requires forall x :: f(x) == g(x)
    ensures Substitute(s, f) == Substitute(s, g)
  {
    if s != "" {
      SubstituteExtensional(s[1..], f, g);
    }
  }

  /** No escape inserted by an earlier replacement is escaped again by a later one. */
  lemma XmlEscapeIsSinglePass(value: string)
    ensures XmlEscape(value) == Substitute(value, XmlImage)
  {
    ReplaceIsSubstitute(value, c => XmlImageUpTo(c, 1), '&', "&amp;");
    XmlChain(value, 2);
    XmlChain(value, 3);
    XmlChain(value, 4);
    XmlChain(value, 5);
    SubstituteExtensional(value, c => XmlImageUpTo(c, 5), XmlImage);
  }

  predicate StartsWith(s: string, p: string) {
    |p| <= |s| && s[..|p|] == p
  }

  function Prepend(c: char, r: Option<string>): Option<string> {
    match r
    case None => None
    case Some(s) => Some([c] + s)
  }

  /** Reads character data or an attribute value; markup and unknown references are rejected. */
  function XmlDecode(s: string): Option<string>
    decreases |s|
  {
    if s == "" then Some("")
    else if s[0] == '&' then
      if StartsWith(s, "&amp;") then Prepend('&', XmlDecode(s[5..]))
      else if StartsWith(s, "&lt;") then Prepend('<', XmlDecode(s[4..]))
      else if StartsWith(s, "&gt;") then Prepend('>', XmlDecode(s[4..]))
      else if StartsWith(s, "&quot;") then Prepend('\"', XmlDecode(s[6..]))
      else if StartsWith(s, "&apos;") then Prepend('\'', XmlDecode(s[6..]))
      else None
    else if s[0] in {'<', '>', '\"', '\''} then None
    else Prepend(s[0], XmlDecode(s[1..]))
  }

  lemma XmlDecodeImage(c: char, tail: string)
    ensures XmlDecode(XmlImage(c) + tail) == Prepend(c, XmlDecode(tail))
  {
    var e := XmlImage(c);
    var s := e + tail;
    assert s[..|e|] == e && s[|e|..] == tail;
    if c == '&' || c == '<' || c == '>' || c == '\"' || c == '\'' {
      assert s[1] == e[1];
      assert s[2] == e[2];
      assert !StartsWith(s, "&amp;") || (s[1] == 'a' && s[2] == 'm');
      assert !StartsWith(s, "&lt;") || s[1] == 'l';
      assert !StartsWith(s, "&gt;") || s[1] == 'g';
      assert !StartsWith(s, "&quot;") || s[1] == 'q';
    }
  }

  lemma {:induction false} XmlDecodeSubstituted(value: string)
    ensures XmlDecode(Substitute(value, XmlImage)) == Some(value)
  {
    if value != "" {
      XmlDecodeImage(value[0], Substitute(value[1..], XmlImage));
      XmlDecodeSubstituted(value[1..]);
      assert [value[0]] + value[1..] == value;
    }
  }

  /** Decoding accepts every escaped value (so nothing special survives bare) and restores it. */
  lemma XmlRoundTrip(value: string)
    ensures XmlDecode(XmlEscape(value)) == Some(value)
  {
    XmlEscapeIsSinglePass(value);
    XmlDecodeSubstituted(value);
  }

  /** What decodes contains no markup character outside a reference. */
  lemma {:induction false} XmlDecodableHasNoMarkup(s: string, c: char)
    requires XmlDecode(s).Some?
    requires c in {'<', '>', '\"', '\''}
    ensures c !in s
    decreases |s|
  {
    if s != "" {
      var n := if StartsWith(s, "&amp;") then 5
               else if StartsWith(s, "&lt;") || StartsWith(s, "&gt;") then 4
               else if StartsWith(s, "&quot;") || StartsWith(s, "&apos;") then 6 else 1;
      XmlDecodableHasNoMarkup(s[n..], c);
      assert s == s[..n] + s[n..];
      assert c !in s[..n];
    }
  }

  lemma XmlEscapedHasNoMarkup(value: string)
    ensures forall c :: c in {'<', '>', '\"', '\''} ==> c !in XmlEscape(value)
  {
    XmlRoundTrip(value);
    forall c | c in {'<', '>', '\"', '\''} ensures c !in XmlEscape(value) {
      XmlDecodableHasNoMarkup(XmlEscape(value), c);
    }
  }

  /** The characters of section 2.2 of XML 1.0. */
  predicate IsXmlChar(c: char) {
    c == '\t' || c == '\n' || c == '\r' || (' ' <= c && c != '\U{FFFE}' && c != '\U{FFFF}')
  }

  /** Line ends as section 2.11 of XML 1.0 has a reader see them. */
  function NormalizeLineEnds(s: string): string {
    if s == "" then ""
    else if s[0] != '\r' then [s[0]] + NormalizeLineEnds(s[1..])
    else if |s| > 1 && s[1] == '\n' then NormalizeLineEnds(s[1..])
    else "\n" + NormalizeLineEnds(s[1..])
  }

  function XmlRead(s: string): Option<string> {
    if exists i :: 0 <= i < |s| && !IsXmlChar(s[i]) then None else XmlDecode(NormalizeLineEnds(s))
  }

  /** Characters that no reader hands on, but that escaping leaves as they are. */
  predicate IsLostInXml(c: char) {
    c == '\r' || !IsXmlChar(c)
  }

  lemma {:induction false} EscapeKeepsLostChars(value: string, c: char)
    requires IsLostInXml(c)
    ensures c in Substitute(value, XmlImage) <==> c in value
  {
    if value != "" {
      EscapeKeepsLostChars(value[1..], c);
      ImageKeepsLostChars(value[0], c);
      assert value == [value[0]] + value[1..];
    }
  }

  lemma ImageKeepsLostChars(x: char, c: char)
    requires IsLostInXml(c)
    ensures c in XmlImage(x) <==> c == x
  {
    var e := XmlImage(x);
    assert e == [x] || forall i :: 0 <= i < |e| ==> e[i] == '&' || e[i] == ';' || 'a' <= e[i] <= 'z';
    assert e[0] == x || e[0] == '&';
  }

  lemma {:induction false} NoReturnsStay(s: string)
    requires '\r' !in s
    ensures NormalizeLineEnds(s) == s
  {
    if s != "" {
      NoReturnsStay(s[1..]);
    }
  }

  lemma {:induction false} NoReturnsLeft(s: string)
    ensures '\r' !in NormalizeLineEnds(s)
  {
    if s != "" {
      NoReturnsLeft(s[1..]);
    }
  }

  /** Decoding brings in no carriage return. */
  lemma {:induction false} DecodeBringsNoReturn(s: string)
    requires '\r' !in s && XmlDecode(s).Some?
    ensures '\r' !in XmlDecode(s).value
    decreases |s|
  {
    if s != "" {
      var n := if StartsWith(s, "&amp;") then 5
               else if StartsWith(s, "&lt;") || StartsWith(s, "&gt;") then 4
               else if StartsWith(s, "&quot;") || StartsWith(s, "&apos;") then 6 else 1;
      DecodeBringsNoReturn(s[n..]);
    }
  }

  /** An XML reader gives the value back exactly when the value has neither a carriage return nor
      a character outside XML. */
  lemma XmlReadsBackExactly(value: string)
    ensures XmlRead(XmlEscape(value)) == Some(value) <==> forall c :: c in value ==> !IsLostInXml(c)
  {
    hide IsXmlChar, XmlDecode, NormalizeLineEnds, Substitute, XmlEscape;
    var e := XmlEscape(value);
    XmlEscapeIsSinglePass(value);
    XmlRoundTrip(value);
    forall c | IsLostInXml(c) ensures c in e <==> c in value {
      EscapeKeepsLostChars(value, c);
    }
    NoReturnsLeft(e);
    if forall c :: c in value ==> !IsLostInXml(c) {
      forall i | 0 <= i < |e| ensures IsXmlChar(e[i]) {
        assert e[i] in e;
      }
      assert IsLostInXml('\r');
      NoReturnsStay(e);
    } else {
      var c :| c in value && IsLostInXml(c);
      if IsXmlChar(c) && XmlDecode(NormalizeLineEnds(e)).Some? {
        DecodeBringsNoReturn(NormalizeLineEnds(e));
      }
    }
  }

  // ---------------------------------------------------------------- systemd

  function SystemdEscape(value: string): string {
    var slashes := Replace(value, '\\', "\\\\");
    var quotes := Replace(slashes, '\"', "\\\"");
    Replace(quotes, '%', "%%")
  }

  function SystemdImage(c: char): string {
    match c
    case '\\' => "\\\\"
    case '\"' => "\\\""
    case '%' => "%%"
    case _ => [c]
  }

  lemma SystemdEscapeIsSinglePass(value: string)
    ensures SystemdEscape(value) == Substitute(value, SystemdImage)
  {
    var f1 := (c: char) => if c == '\\' then "\\\\" else [c];
    var f2 := (c: char) => if c == '\"' then "\\\"" else f1(c);
    ReplaceIsSubstitute(value, f1, '\\', "\\\\");
    forall x ensures Replace(f1(x), '\"', "\\\"") == f2(x) {
      assert f1(x)[1..] == if x == '\\' then "\\" else "";
      if x == '\\' { ReplaceNone(f1(x), '\"', "\\\""); }
    }
    ReplaceAfterSubstitute(value, f1, f2, '\"', "\\\"");
    forall x ensures Replace(f2(x), '%', "%%") == SystemdImage(x) {
      assert x == '%' ==> f2(x)[1..] == "";
      if x != '%' { ReplaceNone(f2(x), '%', "%%"); }
    }
    ReplaceAfterSubstitute(value, f2, SystemdImage, '%', "%%");
  }

  /** Reads the inside of a double-quoted word up to its closing quote, which must end the text. */
  function Unquote(s: string): Option<string>
    decreases |s|
  {
    if s == "" then None
    else if s[0] == '\"' then if |s| == 1 then Some("") else None
    else if s[0] == '\\' then
      if |s| > 1 && (s[1] == '\\' || s[1] == '\"') then Prepend(s[1], Unquote(s[2..])) else None
    else Prepend(s[0], Unquote(s[1..]))
  }

  /** Resolves specifiers; only the literal percent sign is a specifier here. */
  function ExpandSpecifiers(s: string): Option<string>
    decreases |s|
  {
    if s == "" then Some("")
    else if s[0] == '%' then
      if |s| > 1 && s[1] == '%' then Prepend('%', ExpandSpecifiers(s[2..])) else None
    else Prepend(s[0], ExpandSpecifiers(s[1..]))
  }

  /** An `Environment="..."` word: unquoting first, then specifier expansion. */
  function SystemdReadWord(word: string): Option<string> {
    if word == "" || word[0] != '\"' then None
    else
      match Unquote(word[1..])
      case None => None
      case Some(text) => ExpandSpecifiers(text)
  }

  /** After unquoting, only the doubled percent signs are left to resolve. */
  function PercentImage(c: char): string {
    if c == '%' then "%%" else [c]
  }

  /** Unquoting undoes the escape of one character. */
  lemma UnquoteImage(c: char, tail: string)
    requires tail != ""
    ensures Unquote(SystemdImage(c) + tail)
         == match Unquote(tail) case None => None case Some(text) => Some(PercentImage(c) + text)
  {
    var s := SystemdImage(c) + tail;
    assert s[|SystemdImage(c)|..] == tail;
    if c == '%' {
      assert s[1..] == ['%'] + tail;
      assert (['%'] + tail)[1..] == tail;
      var read := Unquote(tail);
      assert read.Some? ==> ['%'] + (['%'] + read.value) == "%%" + read.value;
    }
  }

  lemma {:induction false} UnquoteSubstituted(value: string)
    ensures Unquote(Substitute(value, SystemdImage) + "\"") == Some(Substitute(value, PercentImage))
  {
    hide SystemdImage, PercentImage;
    if value == "" {
      assert Substitute(value, SystemdImage) + "\"" == "\"";
    } else {
      var tail := Substitute(value[1..], SystemdImage) + "\"";
      UnquoteSubstituted(value[1..]);
      assert Substitute(value, SystemdImage) + "\"" == SystemdImage(value[0]) + tail;
      UnquoteImage(value[0], tail);
    }
  }

  lemma {:induction false} ExpandPercent(value: string)
    ensures ExpandSpecifiers(Substitute(value, PercentImage)) == Some(value)
  {
    if value != "" {
      var c := value[0];
      var tail := Substitute(value[1..], PercentImage);
      var s := PercentImage(c) + tail;
      ExpandPercent(value[1..]);
      assert s[|PercentImage(c)|..] == tail;
      assert [c] + value[1..] == value;
    }
  }

  /** systemd reads a quoted, escaped value back unchanged. */
  lemma SystemdRoundTrip(value: string)
    ensures SystemdReadWord("\"" + SystemdEscape(value) + "\"") == Some(value)
  {
    SystemdEscapeIsSinglePass(value);
    UnquoteSubstituted(value);
    ExpandPercent(value);
    var word := "\"" + SystemdEscape(value) + "\"";
    assert word[1..] == Substitute(value, SystemdImage) + "\"";
  }

  /** Characters that end a line of a unit file. */
  predicate IsLineBreak(c: char) {
    c == '\n' || c == '\r' || c == '\0'
  }

  predicate HasLineBreak(s: string) {
    exists i :: 0 <= i < |s| && IsLineBreak(s[i])
  }

  function FirstLine(text: string): string {
    if text == "" || IsLineBreak(text[0]) then "" else [text[0]] + FirstLine(text[1..])
  }

  lemma {:induction false} FirstLineAfter(prefix: string, rest: string)
    requires !HasLineBreak(prefix)
    ensures FirstLine(prefix + rest) == prefix + FirstLine(rest)
  {
    if prefix == "" {
      assert prefix + rest == rest;
    } else {
      var s := prefix + rest;
      assert s[1..] == prefix[1..] + rest;
      assert forall i :: 0 <= i < |prefix[1..]| ==> prefix[1..][i] == prefix[i + 1];
      assert !IsLineBreak(prefix[0]);
      FirstLineAfter(prefix[1..], rest);
      assert [prefix[0]] + (prefix[1..] + FirstLine(rest)) == prefix + FirstLine(rest);
    }
  }

  /** Escaping neither adds nor removes line breaks. */
  lemma SystemdImageBreaks(c: char)
    ensures HasLineBreak(SystemdImage(c)) <==> IsLineBreak(c)
  {
    var e := SystemdImage(c);
    assert e == [c] || forall i :: 0 <= i < |e| ==> e[i] in {'\\', '\"', '%'};
    assert e[0] in {c, '\\'};
  }

  lemma {:induction false} SystemdEscapeKeepsOneLine(value: string)
    requires !HasLineBreak(value)
    ensures !HasLineBreak(Substitute(value, SystemdImage))
  {
    hide SystemdImage;
    if value != "" {
      var e, tail := SystemdImage(value[0]), Substitute(value[1..], SystemdImage);
      assert forall i :: 0 <= i < |value[1..]| ==> value[1..][i] == value[i + 1];
      SystemdEscapeKeepsOneLine(value[1..]);
      SystemdImageBreaks(value[0]);
      assert !IsLineBreak(value[0]);
      forall i | 0 <= i < |e + tail| ensures !IsLineBreak((e + tail)[i]) {
        if i >= |e| {
          assert (e + tail)[i] == tail[i - |e|];
        } else {
          assert (e + tail)[i] == e[i];
        }
      }
    }
  }

  /** A value with a line break in it leaves the quotes open on its first line. */
  lemma {:induction false} BrokenLineStaysOpen(value: string, tail: string)
    requires HasLineBreak(value)
    ensures Unquote(FirstLine(Substitute(value, SystemdImage) + tail)) == None
  {
    var c, rest := value[0], Substitute(value[1..], SystemdImage) + tail;
    var s := Substitute(value, SystemdImage) + tail;
    assert s == SystemdImage(c) + rest;
    if !IsLineBreak(c) {
      var i :| 0 <= i < |value| && IsLineBreak(value[i]);
      assert value[1..][i - 1] == value[i];
      BrokenLineStaysOpen(value[1..], tail);
      SystemdImageBreaks(c);
      FirstLineAfter(SystemdImage(c), rest);
      OpenImage(c, FirstLine(rest));
    }
  }

  lemma OpenImage(c: char, line: string)
    requires Unquote(line) == None
    ensures Unquote(SystemdImage(c) + line) == None
  {
    if line != "" {
      UnquoteImage(c, line);
    } else {
      assert SystemdImage(c) + line == SystemdImage(c);
      assert c == '%' ==> "%%"[1..] == "%" && "%"[1..] == "";
    }
  }

  /** The `PATH` line of the unit file gives the value back exactly when the value has no line
      break in it. */
  lemma SystemdLineRoundTrip(value: string)
    ensures SystemdReadWord(FirstLine("\"" + ("PATH=" + SystemdEscape(value) + "\"") + "\n")) == Some("PATH=" + value)
            <==> !HasLineBreak(value)
  {
    var word := "PATH=" + value;
    SystemdEscapeIsSinglePass(value);
    SystemdEscapeIsSinglePass(word);
    PlainPrefix("PATH=", value, SystemdImage);
    var escaped := Substitute(word, SystemdImage);
    var quoted := "\"" + ("PATH=" + SystemdEscape(value) + "\"");
    assert quoted == "\"" + (escaped + "\"");
    assert quoted == "\"" + SystemdEscape(word) + "\"";
    if HasLineBreak(value) {
      var i :| 0 <= i < |value| && IsLineBreak(value[i]);
      assert word[i + 5] == value[i];
      BrokenLineStaysOpen(word, "\"\n");
      assert quoted + "\n" == ['\"'] + (escaped + "\"\n");
      assert (quoted + "\n")[1..] == escaped + "\"\n";
    } else {
      forall i | 0 <= i < |word| ensures !IsLineBreak(word[i]) {
        if i >= 5 {
          assert word[i] == value[i - 5];
        }
      }
      SystemdEscapeKeepsOneLine(word);
      forall i | 0 <= i < |quoted| ensures !IsLineBreak(quoted[i]) {
        if 0 < i < |quoted| - 1 {
          assert quoted[i] == escaped[i - 1];
        }
      }
      FirstLineAfter(quoted, "\n");
      assert quoted + "" == quoted;
      SystemdRoundTrip(word);
    }
  }

  lemma {:induction false} PlainPrefix(prefix: string, value: string, image: char -> string)
    requires forall c :: c in prefix ==> image(c) == [c]
    ensures Substitute(prefix + value, image) == prefix + Substitute(value, image)
  {
    if prefix == "" {
      assert prefix + value == value;
    } else {
      assert (prefix + value)[1..] == prefix[1..] + value;
      PlainPrefix(prefix[1..], value, image);
    }
  }

  // ------------------------------------------------------------- PowerShell

  function PowershellSingleQuote(value: string): string {
    "'" + Replace(value, '\'', "''") + "'"
  }

  /** Characters PowerShell accepts as a single quote besides the ASCII one. */
  predicate IsTypographicQuote(c: char) {
    '\U{2018}' <= c <= '\U{201B}'
  }

  predicate IsSingleQuote(c: char) {
    c == '\'' || IsTypographicQuote(c)
  }

  /** Reads the inside of a single-quoted string: any two quotes in a row stand for
      the second one, a lone quote closes the string and must end the text. */
  function PowershellScan(s: string): Option<string>
    decreases |s|
  {
    if s == "" then None
    else if IsSingleQuote(s[0]) then
      if |s| == 1 then Some("")
      else if IsSingleQuote(s[1]) then Prepend(s[1], PowershellScan(s[2..]))
      else None
    else Prepend(s[0], PowershellScan(s[1..]))
  }

  function PowershellRead(literal: string): Option<string> {
    if literal == "" || !IsSingleQuote(literal[0]) then None else PowershellScan(literal[1..])
  }

  ghost predicate HasTypographicQuote(s: string) {
    exists i :: 0 <= i < |s| && IsTypographicQuote(s[i])
  }

  lemma {:induction false} PowershellScanPlain(value: string)
    requires !HasTypographicQuote(value)
    ensures PowershellScan(Replace(value, '\'', "''") + "'") == Some(value)
  {
    if value != "" {
      var c := value[0];
      var head := if c == '\'' then "''" else [c];
      var tail := Replace(value[1..], '\'', "''") + "'";
      assert forall i :: 0 <= i < |value[1..]| ==> value[1..][i] == value[i + 1];
      assert !HasTypographicQuote(value[1..]);
      assert !IsTypographicQuote(value[0]);
      PowershellScanPlain(value[1..]);
      var s := head + tail;
      assert Replace(value, '\'', "''") + "'" == s;
      assert s[|head|..] == tail;
      assert [c] + value[1..] == value;
    }
  }

  /** The printed literal denotes the value exactly when the value has no typographic quote. */
  lemma PowershellRoundTrip(value: string)
    ensures PowershellRead(PowershellSingleQuote(value)) == Some(value) <==> !HasTypographicQuote(value)
  {
    var e := Replace(value, '\'', "''");
    var literal := PowershellSingleQuote(value);
    assert literal[1..] == e + "'";
    if !HasTypographicQuote(value) {
      PowershellScanPlain(value);
    } else {
      ReadingLosesOne(value);
    }
  }

  /** A right single quotation mark is enough to break the literal. */
  lemma TypographicQuoteBreaksLiteral()
    ensures PowershellRead(PowershellSingleQuote("it\U{2019}s")) != Some("it\U{2019}s")
  {
    var v := "it\U{2019}s";
    assert IsTypographicQuote(v[2]);
    PowershellRoundTrip(v);
  }

  // ------------------------------------------- both layers of the scheduled task

  function Weight(c: char): nat {
    if IsTypographicQuote(c) then 1 else 0
  }

  /** How many typographic quotes a string has. */
  function Typographic(s: string): nat {
    if s == "" then 0 else Weight(s[0]) + Typographic(s[1..])
  }

  function TypographicIn(args: seq<string>): nat {
    if args == [] then 0 else Typographic(args[0]) + TypographicIn(args[1..])
  }

  lemma {:induction false} TypographicConcat(a: string, b: string)
    ensures Typographic(a + b) == Typographic(a) + Typographic(b)
  {
    if a == "" {
      assert a + b == b;
    } else {
      assert (a + b)[1..] == a[1..] + b;
      TypographicConcat(a[1..], b);
    }
  }

  lemma {:induction false} TypographicNone(s: string)
    ensures Typographic(s) == 0 <==> !HasTypographicQuote(s)
  {
    if s != "" {
      TypographicNone(s[1..]);
      if HasTypographicQuote(s) && !IsTypographicQuote(s[0]) {
        var i :| 0 <= i < |s| && IsTypographicQuote(s[i]);
        assert s[1..][i - 1] == s[i];
      }
      if HasTypographicQuote(s[1..]) {
        var i :| 0 <= i < |s[1..]| && IsTypographicQuote(s[1..][i]);
        assert s[i + 1] == s[1..][i];
      }
    }
  }

  lemma BackslashesWeighNothing(n: nat)
    ensures Typographic(Backslashes(n)) == 0
  {
    TypographicNone(Backslashes(n));
  }

  lemma {:induction false} QuotingKeepsWeight(rest: string, pending: nat)
    ensures Typographic(QuotedBody(rest, pending)) == Typographic(rest)
    decreases |rest|
  {
    if rest == "" {
      BackslashesWeighNothing(2 * pending);
    } else if rest[0] == BACKSLASH {
      QuotingKeepsWeight(rest[1..], pending + 1);
    } else {
      var run, body := Backslashes(Emitted(rest[0], pending)), QuotedBody(rest[1..], 0);
      QuotingKeepsWeight(rest[1..], 0);
      BackslashesWeighNothing(Emitted(rest[0], pending));
      assert QuotedBody(rest, pending) == run + ([rest[0]] + body);
      TypographicConcat(run, [rest[0]] + body);
      TypographicConcat([rest[0]], body);
    }
  }

  lemma {:induction false} CommandLineKeepsWeight(args: seq<string>)
    ensures Typographic(CommandLine(args)) == TypographicIn(args)
  {
    if args != [] {
      var q := Quoted(args[0]);
      CommandLineKeepsWeight(args[1..]);
      QuotingKeepsWeight(args[0], 0);
      if NeedsQuotes(args[0]) {
        TypographicConcat([QUOTE], QuotedBody(args[0], 0));
        TypographicConcat([QUOTE] + QuotedBody(args[0], 0), [QUOTE]);
      }
      if |args| > 1 {
        TypographicConcat(q, " ");
        TypographicConcat(q + " ", CommandLine(args[1..]));
      }
    }
  }

  /** Reading an argument loses no typographic quote. */
  lemma {:induction false} ScanKeepsWeight(s: string, inQuotes: bool, slashes: nat)
    ensures var scan := ScanArgument(s, inQuotes, slashes);
      Typographic(scan.arg) + Typographic(scan.rest) == Typographic(s)
    decreases |s|
  {
    BackslashesWeighNothing(slashes);
    BackslashesWeighNothing(slashes / 2);
    if s != "" {
      if s[0] == BACKSLASH {
        ScanKeepsWeight(s[1..], inQuotes, slashes + 1);
      } else if s[0] == QUOTE && slashes % 2 == 1 {
        ScanKeepsWeight(s[1..], inQuotes, 0);
        PrefixWeighs(Backslashes(slashes / 2), QUOTE, ScanArgument(s[1..], inQuotes, 0).arg);
      } else if s[0] == QUOTE && inQuotes && |s| > 1 && s[1] == QUOTE {
        ScanKeepsWeight(s[2..], inQuotes, 0);
        assert s[1..][1..] == s[2..];
        PrefixWeighs(Backslashes(slashes / 2), QUOTE, ScanArgument(s[2..], inQuotes, 0).arg);
      } else if s[0] == QUOTE {
        ScanKeepsWeight(s[1..], !inQuotes, 0);
        TypographicConcat(Backslashes(slashes / 2), ScanArgument(s[1..], !inQuotes, 0).arg);
      } else if !IsBlank(s[0]) || inQuotes {
        ScanKeepsWeight(s[1..], inQuotes, 0);
        PrefixWeighs(Backslashes(slashes), s[0], ScanArgument(s[1..], inQuotes, 0).arg);
      }
    }
  }

  lemma PrefixWeighs(run: string, c: char, arg: string)
    ensures Typographic(run + [c] + arg) == Typographic(run) + Weight(c) + Typographic(arg)
  {
    TypographicConcat(run + [c], arg);
    TypographicConcat(run, [c]);
  }

  lemma {:induction false} ParsingKeepsWeight(s: string)
    ensures TypographicIn(ParseCommandLine(s)) == Typographic(s)
    decreases |s|
  {
    if s != "" {
      if IsBlank(s[0]) {
        ParsingKeepsWeight(s[1..]);
      } else {
        ScanKeepsWeight(s, false, 0);
        ParsingKeepsWeight(ScanArgument(s, false, 0).rest);
      }
    }
  }

  /** What PowerShell reads has no more typographic quotes than what was written, */
  lemma {:induction false} ReadingAddsNone(s: string)
    ensures PowershellScan(s).Some? ==> Typographic(PowershellScan(s).value) <= Typographic(s)
    decreases |s|
  {
    if s != "" {
      if IsSingleQuote(s[0]) {
        if |s| > 1 {
          assert s[1..][1..] == s[2..];
          ReadingAddsNone(s[2..]);
        }
      } else {
        ReadingAddsNone(s[1..]);
      }
    }
  }

  /** and fewer than a value that has any: the first one is taken for half of a pair. */
  lemma {:induction false} ReadingLosesOne(value: string)
    requires HasTypographicQuote(value)
    ensures var read := PowershellScan(Replace(value, '\'', "''") + "'");
      read.Some? ==> Typographic(read.value) < Typographic(value)
  {
    var c, tail := value[0], Replace(value[1..], '\'', "''") + "'";
    var head := if c == '\'' then "''" else [c];
    var s := head + tail;
    assert Replace(value, '\'', "''") + "'" == s;
    assert s[|head|..] == tail;
    if IsTypographicQuote(c) {
      assert s[1..] == tail && s[1..][1..] == s[2..];
      ReadingAddsNone(s[2..]);
      DoublingKeepsWeight(value[1..]);
    } else {
      var i :| 0 <= i < |value| && IsTypographicQuote(value[i]);
      assert value[1..][i - 1] == value[i];
      ReadingLosesOne(value[1..]);
      if c == '\'' {
        assert s[1] == '\'' && s[2..] == tail;
      } else {
        assert s[1..] == tail;
      }
    }
  }

  lemma {:induction false} DoublingKeepsWeight(value: string)
    ensures Typographic(Replace(value, '\'', "''") + "'") == Typographic(value)
  {
    if value == "" {
      assert Replace(value, '\'', "''") + "'" == "'";
      assert "'"[1..] == "";
    } else {
      var c, tail := value[0], Replace(value[1..], '\'', "''") + "'";
      var head := if c == '\'' then "''" else [c];
      assert Replace(value, '\'', "''") + "'" == head + tail;
      TypographicConcat(head, tail);
      assert head[1..] == if c == '\'' then "'" else "";
      assert Typographic("'") == 0 by { assert "'"[1..] == ""; }
      DoublingKeepsWeight(value[1..]);
    }
  }

  lemma {:induction false} TypographicInNone(args: seq<string>)
    ensures TypographicIn(args) == 0 <==> forall a :: a in args ==> !HasTypographicQuote(a)
  {
    if args != [] {
      TypographicNone(args[0]);
      TypographicInNone(args[1..]);
      assert args == [args[0]] + args[1..];
    }
  }

  /** The scheduled task's arguments, quoted for the C runtime and then for PowerShell, reach
      the program unchanged exactly when none of them has a typographic quote. */
  lemma TaskArgumentsRoundTrip(args: seq<string>)
    ensures var read := PowershellRead(PowershellSingleQuote(CommandLine(args)));
      read.Some? && ParseCommandLine(read.value) == args <==> forall a :: a in args ==> !HasTypographicQuote(a)
  {
    hide ParseCommandLine, CommandLine, Typographic, TypographicIn, HasTypographicQuote, PowershellScan;
    var line := CommandLine(args);
    var literal := PowershellSingleQuote(line);
    CommandLineKeepsWeight(args);
    TypographicInNone(args);
    TypographicNone(line);
    CommandLineRoundTrip(args);
    PowershellRoundTrip(line);
    if HasTypographicQuote(line) {
      ReadingLosesOne(line);
      assert literal[1..] == Replace(line, '\'', "''") + "'";
      if PowershellRead(literal).Some? {
        ParsingKeepsWeight(PowershellRead(literal).value);
      }
    }
  }
}
