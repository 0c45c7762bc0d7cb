/** The generated plugin script (server/plugin_store.go, buildPluginPowerShell)
    and a reader for it that lexes verbatim string literals as section 2.3.5.2 of
    the PowerShell Language Specification says. */
module PowerShell {
  import opened Wrappers
  import opened Plugins

  // ---------------------------------------------------------------- literals

  predicate IsSmartQuote(c: char) {
    '\U{2018}' <= c <= '\U{201B}'
  }

  /** PowerShell reads the typographic quotes as single quotes too. */
  predicate IsSingleQuote(c: char) {
    c == '\'' || IsSmartQuote(c)
  }

  /** No typographic single quote occurs in s. */
  predicate StraightQuotes(s: string) {
    forall i :: 0 <= i < |s| ==> !IsSmartQuote(s[i])
  }

  /** strings.ReplaceAll(value, "'", "''"). */
  function Escape(value: string): string {
    if value == "" then ""
    else (if value[0] == '\'' then "''" else [value[0]]) + Escape(value[1..])
  }

  function Literal(value: string): string {
    "'" + Escape(value) + "'"
  }

  /** The rest of a literal after its opening quote: two quotes stand for one, one alone closes. */
  function LexBody(s: string, acc: string): (r: Option<(string, string)>)
    ensures r.Some? ==> |r.value.1| < |s|
  {
    if s == "" then None
    else if !IsSingleQuote(s[0]) then LexBody(s[1..], acc + [s[0]])
    else if |s| > 1 && IsSingleQuote(s[1]) then LexBody(s[2..], acc + [s[1]])
    else Some((acc, s[1..]))
  }

  function LexLiteral(s: string): (r: Option<(string, string)>)
    ensures r.Some? ==> |r.value.1| < |s|
  {
    if s == "" || !IsSingleQuote(s[0]) then None else LexBody(s[1..], "")
  }

  /** The text after a literal must not start with another quote. */
  predicate Separated(rest: string) {
    rest == "" || !IsSingleQuote(rest[0])
  }

  lemma {:induction false} LexBodyReads(value: string, rest: string, acc: string)
    requires StraightQuotes(value) && Separated(rest)
    ensures LexBody(Escape(value) + "'" + rest, acc) == Some((acc + value, rest))
  {
    var s := Escape(value) + "'" + rest;
    if value == "" {
      assert s == "'" + rest && s[1..] == rest && acc + value == acc;
    } else {
      var tail := Escape(value[1..]) + "'" + rest;
      LexBodyReads(value[1..], rest, acc + [value[0]]);
      assert acc + [value[0]] + value[1..] == acc + value;
      assert !IsSmartQuote(value[0]);
      if value[0] == '\'' {
        assert s == "''" + tail && s[2..] == tail;
      } else {
        assert s == [value[0]] + tail && s[1..] == tail;
      }
    }
  }

  lemma LiteralReads(value: string, rest: string)
    requires StraightQuotes(value) && Separated(rest)
    ensures LexLiteral(Literal(value) + rest) == Some((value, rest))
  {
    var s := Literal(value) + rest;
    assert s[1..] == Escape(value) + "'" + rest;
    LexBodyReads(value, rest, "");
    assert "" + value == value;
  }

  /** How many characters of s PowerShell takes for single quotes. */
  function Quotes(s: string): nat {
    if s == "" then 0 else (if IsSingleQuote(s[0]) then 1 else 0) + Quotes(s[1..])
  }

  lemma {:induction false} QuotesAppend(a: string, b: string)
    ensures Quotes(a + b) == Quotes(a) + Quotes(b)
  {
    if a == "" {
      assert a + b == b;
    } else {
      assert (a + b)[1..] == a[1..] + b;
      QuotesAppend(a[1..], b);
    }
  }

  /** A lexed literal uses up two quotes for each one it contains and two delimiters. */
  lemma {:induction false} LexBodyQuotes(s: string, acc: string)
    requires LexBody(s, acc).Some?
    ensures var (value, rest) := LexBody(s, acc).value;
            Quotes(s) + 2 * Quotes(acc) == 2 * Quotes(value) + 1 + Quotes(rest)
    decreases |s|
  {
    if !IsSingleQuote(s[0]) {
      QuotesAppend(acc, [s[0]]);
      LexBodyQuotes(s[1..], acc + [s[0]]);
    } else if |s| > 1 && IsSingleQuote(s[1]) {
      QuotesAppend(acc, [s[1]]);
      assert s[2..] == s[1..][1..];
      LexBodyQuotes(s[2..], acc + [s[1]]);
    }
  }

  lemma LexLiteralQuotes(s: string)
    requires LexLiteral(s).Some?
    ensures var (value, rest) := LexLiteral(s).value; Quotes(s) == 2 * Quotes(value) + 2 + Quotes(rest)
  {
    LexBodyQuotes(s[1..], "");
  }

  /** Escaping doubles the plain quotes only. */
  lemma {:induction false} EscapeQuotesCount(value: string)
    ensures Quotes(Escape(value)) <= 2 * Quotes(value)
    ensures Quotes(Escape(value)) == 2 * Quotes(value) <==> StraightQuotes(value)
  {
    if value != "" {
      EscapeQuotesCount(value[1..]);
      var head := if value[0] == '\'' then "''" else [value[0]];
      QuotesAppend(head, Escape(value[1..]));
      assert Quotes("''") == 2 by { assert "''"[1..] == "'" && "'"[1..] == ""; }
      assert StraightQuotes(value) <==> !IsSmartQuote(value[0]) && StraightQuotes(value[1..]) by {
        assert forall i :: 0 < i < |value| ==> value[i] == value[1..][i - 1];
        assert forall i :: 0 <= i < |value[1..]| ==> value[1..][i] == value[i + 1];
      }
    }
  }

  lemma LiteralQuotes(value: string)
    ensures Quotes(Literal(value)) <= 2 * Quotes(value) + 2
    ensures Quotes(Literal(value)) == 2 * Quotes(value) + 2 <==> StraightQuotes(value)
  {
    EscapeQuotesCount(value);
    QuotesAppend("'" + Escape(value), "'");
    QuotesAppend("'", Escape(value));
  }

  /** A generated literal is read back, and ends at its own closing quote, exactly when
      the value has no typographic single quote. */
  lemma LiteralReadsExactlyWhenStraight(value: string, rest: string)
    requires Separated(rest)
    ensures LexLiteral(Literal(value) + rest) == Some((value, rest)) <==> StraightQuotes(value)
  {
    if StraightQuotes(value) {
      LiteralReads(value, rest);
    } else if LexLiteral(Literal(value) + rest) == Some((value, rest)) {
      LexLiteralQuotes(Literal(value) + rest);
      QuotesAppend(Literal(value), rest);
      LiteralQuotes(value);
      assert false;
    }
  }

  // ---------------------------------------------------------------- the script

  /** The fixed text of a script; the reasoning about literals does not depend on its wording. */
  datatype Template = Template(header: string, fileOpen: string, fileMiddle: string, fileClose: string,
                               entryOpen: string, argsOpen: string, cmdCall: string, powerShellCall: string)

  const PLUGIN_TEMPLATE := Template(
    "$ErrorActionPreference = 'Stop'\n"
    + "$pluginDir = Join-Path $env:TEMP ('trish-plugin-' + [guid]::NewGuid().ToString('N'))\n"
    + "New-Item -ItemType Directory -Force -Path $pluginDir | Out-Null\n"
    + "try {\n",
    "  $file = Join-Path $pluginDir ",
    "\n"
    + "  New-Item -ItemType Directory -Force -Path (Split-Path -Parent $file) | Out-Null\n"
    + "  [IO.File]::WriteAllBytes($file, [Convert]::FromBase64String(",
    "))\n",
    "  $entry = Join-Path $pluginDir ",
    "\n"
    + "  $pluginArgs = @(",
    ")\n" + (CMD_CALL + FOOTER),
    ")\n" + (POWER_SHELL_CALL + FOOTER))

  const CMD_CALL := "  & cmd.exe @('/C', $entry) $pluginArgs\n"

  // In pieces, because the verifier finds a character of a short literal more easily.
  const POWER_SHELL_CALL :=
    "  & powershell.exe" + " -NoProfile -NonInteractive -ExecutionPolicy Bypass -File $entry @pluginArgs\n"

  const FOOTER :=
    "} finally {\n"
    + "  Remove-Item -LiteralPath $pluginDir -Recurse -Force -ErrorAction SilentlyContinue\n"
    + "}\n"

  /** What reading relies on: the pieces around literals do not start with a quote, a file
      block cannot be mistaken for the entry line, and the two calls differ. */
  predicate Readable(t: Template) {
    && t.fileMiddle != "" && Separated(t.fileMiddle) && t.fileClose != "" && Separated(t.fileClose)
    && t.argsOpen != "" && Separated(t.argsOpen)
    && |t.fileOpen| > 3 && |t.entryOpen| > 3 && t.fileOpen[3] != t.entryOpen[3]
    && t.cmdCall != t.powerShellCall
    && t.cmdCall != "" && t.cmdCall[0] == ')' && t.powerShellCall != "" && t.powerShellCall[0] == ')'
  }

  lemma PluginTemplateIsReadable()
    ensures Readable(PLUGIN_TEMPLATE)
  {
    var t := PLUGIN_TEMPLATE;
    assert t.fileOpen[3] == 'f' && t.entryOpen[3] == 'e';
    assert CMD_CALL[4] == 'c' && POWER_SHELL_CALL[4] == 'p';
    assert t.cmdCall[6] == CMD_CALL[4] && t.powerShellCall[6] == POWER_SHELL_CALL[4];
  }

  /** Each call closes the argument list and starts the interpreter it is for. */
  lemma CallsStartTheirShells()
    ensures PLUGIN_TEMPLATE.cmdCall == ")\n" + ("  & cmd.exe @('/C', $entry) $pluginArgs\n" + FOOTER)
    ensures PLUGIN_TEMPLATE.powerShellCall
         == ")\n" + (("  & powershell.exe"
                      + " -NoProfile -NonInteractive -ExecutionPolicy Bypass -File $entry @pluginArgs\n") + FOOTER)
  {
  }

  /** What a script carries: the files with their base64 text, the entry, the arguments, the shell. */
  datatype ScriptFile = ScriptFile(path: string, base64: string)
  datatype Script = Script(files: seq<ScriptFile>, entry: string, args: seq<string>, cmd: bool)

  function FileText(t: Template, f: ScriptFile): string {
    t.fileOpen + (Literal(f.path) + (t.fileMiddle + (Literal(f.base64) + t.fileClose)))
  }

  function FilesText(t: Template, files: seq<ScriptFile>): string {
    if files == [] then "" else FileText(t, files[0]) + FilesText(t, files[1..])
  }

  function ItemsText(args: seq<string>): string {
    if |args| == 0 then ""
    else if |args| == 1 then Literal(args[0])
    else Literal(args[0]) + (", " + ItemsText(args[1..]))
  }

  function CallText(t: Template, cmd: bool): string {
    if cmd then t.cmdCall else t.powerShellCall
  }

  function TailText(t: Template, s: Script): string {
    t.entryOpen + (Literal(s.entry) + (t.argsOpen + (ItemsText(s.args) + CallText(t, s.cmd))))
  }

  function ScriptText(t: Template, s: Script): string {
    t.header + (FilesText(t, s.files) + TailText(t, s))
  }

  // ---------------------------------------------------------------- building it

  datatype BuildError = InvalidPackage | UnsupportedOs(name: string) | BadBase64(index: nat)

  /** filepath.ToSlash: only a Windows host rewrites its separator. */
  function ToSlash(path: string, windowsHost: bool): string {
    if windowsHost then seq(|path|, i requires 0 <= i < |path| => if path[i] == '\\' then '/' else path[i]) else path
  }

  predicate Decodes(h: Helpers, files: seq<PluginFile>) {
    forall i :: 0 <= i < |files| ==> h.base64Decode(files[i].contentBase64).Some?
  }

  function ScriptFiles(h: Helpers, files: seq<PluginFile>, windowsHost: bool): seq<ScriptFile>
    requires Decodes(h, files)
  {
    seq(|files|, i requires 0 <= i < |files| =>
      ScriptFile(ToSlash(files[i].path, windowsHost), h.base64Encode(h.base64Decode(files[i].contentBase64).value)))
  }

  function ScriptOf(h: Helpers, pkg: Package, args: seq<string>, windowsHost: bool): Script
    requires Decodes(h, pkg.files)
  {
    Script(ScriptFiles(h, pkg.files, windowsHost), pkg.manifest.entry, args, pkg.manifest.shell == "cmd")
  }

  lemma {:induction false} FilesTextAppend(t: Template, files: seq<ScriptFile>, f: ScriptFile)
    ensures FilesText(t, files + [f]) == FilesText(t, files) + FileText(t, f)
  {
    if files == [] {
      assert FilesText(t, [f]) == FileText(t, f) + FilesText(t, [f][1..]);
    } else {
      assert (files + [f])[1..] == files[1..] + [f];
      FilesTextAppend(t, files[1..], f);
    }
  }

  lemma {:induction false} ItemsTextAppend(args: seq<string>, x: string)
    ensures ItemsText(args + [x]) == ItemsText(args) + (if args == [] then "" else ", ") + Literal(x)
  {
    if |args| > 0 {
      assert (args + [x])[1..] == args[1..] + [x];
      ItemsTextAppend(args[1..], x);
      if |args| > 1 {
        assert args[1..] != [];
      }
    }
  }

  predicate EndsWith(s: string, end: string) {
    |s| >= |end| && s[|s| - |end|..] == end
  }

  lemma EndsAfter(a: string, b: string, end: string)
    requires EndsWith(b, end)
    ensures EndsWith(a + b, end)
  {
    assert (a + b)[|a + b| - |end|..] == b[|b| - |end|..];
  }

  /** A script ends with the call of its shell. */
  lemma ScriptEnds(t: Template, s: Script)
    ensures t.header <= ScriptText(t, s) && EndsWith(ScriptText(t, s), if s.cmd then t.cmdCall else t.powerShellCall)
  {
    var end := if s.cmd then t.cmdCall else t.powerShellCall;
    var s1 := ItemsText(s.args) + CallText(t, s.cmd);
    EndsAfter(ItemsText(s.args), CallText(t, s.cmd), end);
    EndsAfter(t.argsOpen, s1, end);
    EndsAfter(Literal(s.entry), t.argsOpen + s1, end);
    EndsAfter(t.entryOpen, Literal(s.entry) + (t.argsOpen + s1), end);
    EndsAfter(FilesText(t, s.files), TailText(t, s), end);
    EndsAfter(t.header, FilesText(t, s.files) + TailText(t, s), end);
  }

  method BuildPluginPowerShell(t: Template, h: Helpers, pkg: Package, args: seq<string>, windowsHost: bool)
    returns (r: Result<string, BuildError>)
    ensures !h.validate(pkg) <==> r == Err(InvalidPackage)
    ensures h.validate(pkg) && !h.supportsWindows(pkg.manifest) <==> r == Err(UnsupportedOs(pkg.manifest.name))
    ensures r.Ok? <==> h.validate(pkg) && h.supportsWindows(pkg.manifest) && Decodes(h, pkg.files)
    ensures r.Ok? ==> r.value == ScriptText(t, ScriptOf(h, pkg, args, windowsHost))
    ensures r.Ok? ==> t.header <= r.value
    ensures r.Ok? ==> EndsWith(r.value, if pkg.manifest.shell == "cmd" then t.cmdCall else t.powerShellCall)
    ensures r.Err? && r.error.BadBase64? ==>
              && r.error.index < |pkg.files| && h.base64Decode(pkg.files[r.error.index].contentBase64).None?
              && Decodes(h, pkg.files[..r.error.index])
  {
    if !h.validate(pkg) {
      return Err(InvalidPackage);
    }
    if !h.supportsWindows(pkg.manifest) {
      return Err(UnsupportedOs(pkg.manifest.name));
    }
    var files: string := "";
    ghost var done: seq<ScriptFile> := [];
    for i := 0 to |pkg.files|
      invariant Decodes(h, pkg.files[..i]) && done == ScriptFiles(h, pkg.files[..i], windowsHost)
      invariant files == FilesText(t, done)
    {
      var file := pkg.files[i];
      assert pkg.files[..i + 1] == pkg.files[..i] + [file];
      var decoded := h.base64Decode(file.contentBase64);
      if decoded.None? {
        return Err(BadBase64(i));
      }
      var encoded := h.base64Encode(decoded.value);
      var rel := ToSlash(file.path, windowsHost);
      files := files + (t.fileOpen + (Literal(rel) + (t.fileMiddle + (Literal(encoded) + t.fileClose))));
      FilesTextAppend(t, done, ScriptFile(rel, encoded));
      done := done + [ScriptFile(rel, encoded)];
    }
    assert pkg.files[..|pkg.files|] == pkg.files;
    var items: string := "";
    for i := 0 to |args|
      invariant items == ItemsText(args[..i])
    {
      assert args[..i + 1] == args[..i] + [args[i]];
      ItemsTextAppend(args[..i], args[i]);
      if i > 0 {
        items := items + ", ";
      }
      items := items + Literal(args[i]);
    }
    assert args[..|args|] == args;
    var call := CallText(t, pkg.manifest.shell == "cmd");
    var tail := t.entryOpen + (Literal(pkg.manifest.entry) + (t.argsOpen + (items + call)));
    ScriptEnds(t, ScriptOf(h, pkg, args, windowsHost));
    return Ok(t.header + (files + tail));
  }

  // ---------------------------------------------------------------- reading it

  function Strip(prefix: string, s: string): (r: Option<string>)
    ensures r.Some? ==> s == prefix + r.value
  {
    if prefix <= s then Some(s[|prefix|..]) else None
  }

  lemma StripReads(prefix: string, s: string)
    ensures Strip(prefix, prefix + s) == Some(s)
  {
    assert (prefix + s)[|prefix|..] == s;
  }

  /** One file block after its opening words. */
  function ReadFile(t: Template, s: string): (r: Option<(ScriptFile, string)>)
    ensures r.Some? ==> |r.value.1| < |s|
  {
    match LexLiteral(s)
    case None => None
    case Some((path, s1)) =>
      match Strip(t.fileMiddle, s1)
      case None => None
      case Some(s2) =>
        match LexLiteral(s2)
        case None => None
        case Some((base64, s3)) =>
          match Strip(t.fileClose, s3)
          case None => None
          case Some(s4) => Some((ScriptFile(path, base64), s4))
  }

  /** The file blocks, up to the first text that does not open one. */
  function ReadFiles(t: Template, s: string): Option<(seq<ScriptFile>, string)>
    decreases |s|
  {
    match Strip(t.fileOpen, s)
    case None => Some(([], s))
    case Some(s1) =>
      match ReadFile(t, s1)
      case None => None
      case Some((f, s2)) =>
        match ReadFiles(t, s2)
        case None => None
        case Some((fs, s3)) => Some(([f] + fs, s3))
  }

  /** The items of an array expression, up to its closing parenthesis. */
  function ReadItems(s: string): Option<(seq<string>, string)>
    decreases |s|
  {
    match LexLiteral(s)
    case None => None
    case Some((item, s1)) =>
      if s1 != "" && s1[0] == ')' then Some(([item], s1))
      else
        match Strip(", ", s1)
        case None => None
        case Some(s2) =>
          match ReadItems(s2)
          case None => None
          case Some((items, s3)) => Some(([item] + items, s3))
  }

  function ReadArgs(s: string): Option<(seq<string>, string)> {
    if s != "" && s[0] == ')' then Some(([], s)) else ReadItems(s)
  }

  function ReadTail(t: Template, files: seq<ScriptFile>, s: string): Option<Script> {
    match Strip(t.entryOpen, s)
    case None => None
    case Some(s1) =>
      match LexLiteral(s1)
      case None => None
      case Some((entry, s2)) =>
        match Strip(t.argsOpen, s2)
        case None => None
        case Some(s3) =>
          match ReadArgs(s3)
          case None => None
          case Some((args, s4)) =>
            if s4 == t.cmdCall then Some(Script(files, entry, args, true))
            else if s4 == t.powerShellCall then Some(Script(files, entry, args, false))
            else None
  }

  function ReadScript(t: Template, s: string): Option<Script> {
    match Strip(t.header, s)
    case None => None
    case Some(s1) =>
      match ReadFiles(t, s1)
      case None => None
      case Some((files, s2)) => ReadTail(t, files, s2)
  }

  // ---------------------------------------------------------------- what is built is read back

  ghost predicate StraightFiles(files: seq<ScriptFile>) {
    forall i :: 0 <= i < |files| ==> StraightQuotes(files[i].path) && StraightQuotes(files[i].base64)
  }

  ghost predicate AllStraight(args: seq<string>) {
    forall i :: 0 <= i < |args| ==> StraightQuotes(args[i])
  }

  ghost predicate StraightScript(s: Script) {
    StraightFiles(s.files) && StraightQuotes(s.entry) && AllStraight(s.args)
  }

  lemma ItemsTextSplits(args: seq<string>, rest: string)
    requires |args| > 1
    ensures ItemsText(args) + rest == Literal(args[0]) + (", " + (ItemsText(args[1..]) + rest))
  {
    var (item, more) := (Literal(args[0]), ItemsText(args[1..]));
    assert ItemsText(args) == item + (", " + more);
    Regroup(item, ", " + more, rest);
    Regroup(", ", more, rest);
  }

  lemma Regroup(a: string, b: string, c: string)
    ensures (a + b) + c == a + (b + c)
  {
  }

  lemma LastItemReads(arg: string, rest: string)
    requires StraightQuotes(arg) && rest != "" && rest[0] == ')'
    ensures ReadItems(Literal(arg) + rest) == Some(([arg], rest))
  {
    LiteralReads(arg, rest);
  }

  lemma OneMoreItemReads(arg: string, more: string, args: seq<string>, rest: string)
    requires StraightQuotes(arg) && ReadItems(more) == Some((args, rest))
    ensures ReadItems(Literal(arg) + (", " + more)) == Some(([arg] + args, rest))
  {
    LiteralReads(arg, ", " + more);
    assert (", " + more)[0] == ',';
    StripReads(", ", more);
  }

  lemma {:induction false} ItemsRead(args: seq<string>, rest: string)
    requires args != [] && AllStraight(args) && rest != "" && rest[0] == ')'
    ensures ReadItems(ItemsText(args) + rest) == Some((args, rest))
  {
    assert StraightQuotes(args[0]);
    if |args| == 1 {
      assert ItemsText(args) + rest == Literal(args[0]) + rest;
      LastItemReads(args[0], rest);
      assert args == [args[0]];
    } else {
      ItemsRead(args[1..], rest);
      OneMoreItemReads(args[0], ItemsText(args[1..]) + rest, args[1..], rest);
      ItemsTextSplits(args, rest);
      assert args == [args[0]] + args[1..];
    }
  }

  lemma FileReads(t: Template, f: ScriptFile, rest: string)
    requires Readable(t) && StraightQuotes(f.path) && StraightQuotes(f.base64)
    ensures ReadFile(t, Literal(f.path) + (t.fileMiddle + (Literal(f.base64) + (t.fileClose + rest))))
         == Some((f, rest))
  {
    var s2 := Literal(f.base64) + (t.fileClose + rest);
    LiteralReads(f.path, t.fileMiddle + s2);
    StripReads(t.fileMiddle, s2);
    LiteralReads(f.base64, t.fileClose + rest);
    StripReads(t.fileClose, rest);
  }

  lemma OneMoreFileReads(t: Template, f: ScriptFile, more: string, files: seq<ScriptFile>, rest: string)
    requires Readable(t) && StraightQuotes(f.path) && StraightQuotes(f.base64)
    requires ReadFiles(t, more) == Some((files, rest))
    ensures ReadFiles(t, t.fileOpen + (Literal(f.path) + (t.fileMiddle + (Literal(f.base64) + (t.fileClose + more)))))
         == Some(([f] + files, rest))
  {
    StripReads(t.fileOpen, Literal(f.path) + (t.fileMiddle + (Literal(f.base64) + (t.fileClose + more))));
    FileReads(t, f, more);
  }

  lemma NoFileOpens(t: Template, rest: string)
    requires Readable(t)
    ensures ReadFiles(t, t.entryOpen + rest) == Some(([], t.entryOpen + rest))
  {
    assert (t.entryOpen + rest)[3] == t.entryOpen[3];
    assert Strip(t.fileOpen, t.entryOpen + rest) == None;
  }

  lemma {:induction false} FilesRead(t: Template, files: seq<ScriptFile>, rest: string)
    requires Readable(t) && StraightFiles(files)
    ensures ReadFiles(t, FilesText(t, files) + (t.entryOpen + rest)) == Some((files, t.entryOpen + rest))
  {
    var end := t.entryOpen + rest;
    if files == [] {
      assert FilesText(t, files) + end == end;
      NoFileOpens(t, rest);
    } else {
      var f := files[0];
      var more := FilesText(t, files[1..]) + end;
      assert FilesText(t, files) + end
          == t.fileOpen + (Literal(f.path) + (t.fileMiddle + (Literal(f.base64) + (t.fileClose + more))));
      FilesRead(t, files[1..], rest);
      OneMoreFileReads(t, f, more, files[1..], end);
      assert files == [f] + files[1..];
    }
  }

  lemma ArgsRead(args: seq<string>, rest: string)
    requires AllStraight(args) && rest != "" && rest[0] == ')'
    ensures ReadArgs(ItemsText(args) + rest) == Some((args, rest))
  {
    if args == [] {
      assert ItemsText(args) + rest == rest;
    } else {
      ItemsRead(args, rest);
      assert (ItemsText(args) + rest)[0] == '\'';
    }
  }

  lemma TailReads(t: Template, s: Script)
    requires Readable(t) && StraightQuotes(s.entry) && AllStraight(s.args)
    ensures ReadTail(t, s.files, TailText(t, s)) == Some(s)
  {
    var s3 := ItemsText(s.args) + CallText(t, s.cmd);
    var s2 := t.argsOpen + s3;
    StripReads(t.entryOpen, Literal(s.entry) + s2);
    LiteralReads(s.entry, s2);
    StripReads(t.argsOpen, s3);
    ArgsRead(s.args, CallText(t, s.cmd));
  }

  lemma ScriptReads(t: Template, s: Script)
    requires Readable(t) && StraightScript(s)
    ensures ReadScript(t, ScriptText(t, s)) == Some(s)
  {
    StripReads(t.header, FilesText(t, s.files) + TailText(t, s));
    FilesRead(t, s.files, Literal(s.entry) + (t.argsOpen + (ItemsText(s.args) + CallText(t, s.cmd))));
    TailReads(t, s);
  }

  // ---------------------------------------------------------------- and nothing else is

  function FilesNeed(t: Template, files: seq<ScriptFile>): nat {
    if files == [] then 0
    else Quotes(t.fileOpen) + 2 * Quotes(files[0].path) + 2 + Quotes(t.fileMiddle)
         + 2 * Quotes(files[0].base64) + 2 + Quotes(t.fileClose) + FilesNeed(t, files[1..])
  }

  function ItemsNeed(args: seq<string>): nat {
    if args == [] then 0 else 2 * Quotes(args[0]) + 2 + ItemsNeed(args[1..])
  }

  /** How many quotes a text must have to be read as s. */
  function TailNeed(t: Template, s: Script): nat {
    Quotes(t.entryOpen) + 2 * Quotes(s.entry) + 2 + Quotes(t.argsOpen) + ItemsNeed(s.args) + Quotes(CallText(t, s.cmd))
  }

  lemma QuotesOfComma()
    ensures Quotes(", ") == 0
  {
    assert ", "[1..] == " " && " "[1..] == "";
  }

  lemma {:induction false} ReadItemsNeeds(s: string)
    requires ReadItems(s).Some?
    ensures var (items, rest) := ReadItems(s).value; Quotes(s) == ItemsNeed(items) + Quotes(rest)
    decreases |s|
  {
    LexLiteralQuotes(s);
    var (item, s1) := LexLiteral(s).value;
    if s1 != "" && s1[0] == ')' {
      assert [item][1..] == [];
    } else {
      var s2 := Strip(", ", s1).value;
      QuotesAppend(", ", s2);
      QuotesOfComma();
      ReadItemsNeeds(s2);
      var items := ReadItems(s2).value.0;
      assert ([item] + items)[1..] == items;
    }
  }

  lemma ReadFileNeeds(t: Template, s: string)
    requires ReadFile(t, s).Some?
    ensures var (f, rest) := ReadFile(t, s).value;
            Quotes(s) == 2 * Quotes(f.path) + 2 + Quotes(t.fileMiddle) + 2 * Quotes(f.base64) + 2
                         + Quotes(t.fileClose) + Quotes(rest)
  {
    LexLiteralQuotes(s);
    var s1 := LexLiteral(s).value.1;
    var s2 := Strip(t.fileMiddle, s1).value;
    QuotesAppend(t.fileMiddle, s2);
    LexLiteralQuotes(s2);
    var s3 := LexLiteral(s2).value.1;
    QuotesAppend(t.fileClose, Strip(t.fileClose, s3).value);
  }

  lemma {:induction false} ReadFilesNeeds(t: Template, s: string)
    requires ReadFiles(t, s).Some?
    ensures var (files, rest) := ReadFiles(t, s).value; Quotes(s) == FilesNeed(t, files) + Quotes(rest)
    decreases |s|
  {
    if Strip(t.fileOpen, s).Some? {
      var s1 := Strip(t.fileOpen, s).value;
      QuotesAppend(t.fileOpen, s1);
      ReadFileNeeds(t, s1);
      var (f, s2) := ReadFile(t, s1).value;
      ReadFilesNeeds(t, s2);
      var fs := ReadFiles(t, s2).value.0;
      assert ([f] + fs)[1..] == fs;
    }
  }

  lemma ReadTailNeeds(t: Template, files: seq<ScriptFile>, s: string)
    requires ReadTail(t, files, s).Some?
    ensures Quotes(s) == TailNeed(t, ReadTail(t, files, s).value) && ReadTail(t, files, s).value.files == files
  {
    var s1 := Strip(t.entryOpen, s).value;
    QuotesAppend(t.entryOpen, s1);
    LexLiteralQuotes(s1);
    var s2 := LexLiteral(s1).value.1;
    var s3 := Strip(t.argsOpen, s2).value;
    QuotesAppend(t.argsOpen, s3);
    if !(s3 != "" && s3[0] == ')') {
      ReadItemsNeeds(s3);
    }
  }

  lemma ReadScriptNeeds(t: Template, s: string)
    requires ReadScript(t, s).Some?
    ensures var r := ReadScript(t, s).value;
            Quotes(s) == Quotes(t.header) + FilesNeed(t, r.files) + TailNeed(t, r)
  {
    var s1 := Strip(t.header, s).value;
    QuotesAppend(t.header, s1);
    ReadFilesNeeds(t, s1);
    var (files, s2) := ReadFiles(t, s1).value;
    ReadTailNeeds(t, files, s2);
  }

  lemma {:induction false} ItemsTextHas(args: seq<string>)
    ensures Quotes(ItemsText(args)) <= ItemsNeed(args)
    ensures Quotes(ItemsText(args)) == ItemsNeed(args) <==> AllStraight(args)
  {
    if args != [] {
      LiteralQuotes(args[0]);
      ItemsTextHas(args[1..]);
      if |args| > 1 {
        QuotesAppend(Literal(args[0]), ", " + ItemsText(args[1..]));
        QuotesAppend(", ", ItemsText(args[1..]));
        QuotesOfComma();
      }
      assert AllStraight(args) <==> StraightQuotes(args[0]) && AllStraight(args[1..]) by {
        assert forall i :: 0 < i < |args| ==> args[i] == args[1..][i - 1];
        assert forall i :: 0 <= i < |args[1..]| ==> args[1..][i] == args[i + 1];
      }
    }
  }

  lemma FileTextHas(t: Template, f: ScriptFile)
    ensures var need := FilesNeed(t, [f]);
            && Quotes(FileText(t, f)) <= need
            && (Quotes(FileText(t, f)) == need <==> StraightQuotes(f.path) && StraightQuotes(f.base64))
  {
    LiteralQuotes(f.path);
    LiteralQuotes(f.base64);
    var c := Literal(f.base64) + t.fileClose;
    QuotesAppend(t.fileOpen, Literal(f.path) + (t.fileMiddle + c));
    QuotesAppend(Literal(f.path), t.fileMiddle + c);
    QuotesAppend(t.fileMiddle, c);
    QuotesAppend(Literal(f.base64), t.fileClose);
    assert [f][1..] == [];
  }

  lemma {:induction false} FilesTextHas(t: Template, files: seq<ScriptFile>)
    ensures Quotes(FilesText(t, files)) <= FilesNeed(t, files)
    ensures Quotes(FilesText(t, files)) == FilesNeed(t, files) <==> StraightFiles(files)
  {
    if files != [] {
      FileTextHas(t, files[0]);
      FilesTextHas(t, files[1..]);
      QuotesAppend(FileText(t, files[0]), FilesText(t, files[1..]));
      assert [files[0]][1..] == [];
      assert StraightFiles(files) <==>
             StraightQuotes(files[0].path) && StraightQuotes(files[0].base64) && StraightFiles(files[1..]) by {
        assert forall i :: 0 < i < |files| ==> files[i] == files[1..][i - 1];
        assert forall i :: 0 <= i < |files[1..]| ==> files[1..][i] == files[i + 1];
      }
    }
  }

  lemma TailTextHas(t: Template, s: Script)
    ensures Quotes(TailText(t, s)) <= TailNeed(t, s)
    ensures Quotes(TailText(t, s)) == TailNeed(t, s) <==> StraightQuotes(s.entry) && AllStraight(s.args)
  {
    LiteralQuotes(s.entry);
    ItemsTextHas(s.args);
    var s3 := ItemsText(s.args) + CallText(t, s.cmd);
    QuotesAppend(t.entryOpen, Literal(s.entry) + (t.argsOpen + s3));
    QuotesAppend(Literal(s.entry), t.argsOpen + s3);
    QuotesAppend(t.argsOpen, s3);
    QuotesAppend(ItemsText(s.args), CallText(t, s.cmd));
  }

  /** The generated script reads back as exactly the files, the entry, the arguments and the
      shell it was built from, if and only if none of those strings has a typographic single quote. */
  lemma ScriptReadsBackExactlyWhenStraight(t: Template, s: Script)
    requires Readable(t)
    ensures ReadScript(t, ScriptText(t, s)) == Some(s) <==> StraightScript(s)
  {
    var rest := FilesText(t, s.files) + TailText(t, s);
    QuotesAppend(t.header, rest);
    QuotesAppend(FilesText(t, s.files), TailText(t, s));
    FilesTextHas(t, s.files);
    TailTextHas(t, s);
    if StraightScript(s) {
      ScriptReads(t, s);
    } else if ReadScript(t, ScriptText(t, s)) == Some(s) {
      ReadScriptNeeds(t, ScriptText(t, s));
      assert false;
    }
  }

  /** r is the path with, on a Windows host, every backslash replaced by a slash. */
  predicate Slashed(path: string, r: string, windowsHost: bool) {
    && |r| == |path|
    && forall k :: 0 <= k < |path| ==> r[k] == if windowsHost && path[k] == '\\' then '/' else path[k]
  }

  lemma SlashesStayStraight(path: string, windowsHost: bool)
    ensures Slashed(path, ToSlash(path, windowsHost), windowsHost)
    ensures StraightQuotes(ToSlash(path, windowsHost)) <==> StraightQuotes(path)
  {
    if windowsHost {
      assert forall k :: 0 <= k < |path| ==> IsSmartQuote(ToSlash(path, true)[k]) == IsSmartQuote(path[k]);
    }
  }

  /** For a package that builds: the script carries every file path (with slashes), every file's
      decoded content, the entry and the caller's arguments unchanged. */
  lemma BuiltScriptCarriesPackage(h: Helpers, pkg: Package, args: seq<string>, windowsHost: bool)
    requires Decodes(h, pkg.files)
    requires forall b :: StraightQuotes(h.base64Encode(b)) && h.base64Decode(h.base64Encode(b)) == Some(b)
    ensures var s := ScriptOf(h, pkg, args, windowsHost);
            && (ReadScript(PLUGIN_TEMPLATE, ScriptText(PLUGIN_TEMPLATE, s)) == Some(s) <==>
                (forall i :: 0 <= i < |pkg.files| ==> StraightQuotes(pkg.files[i].path))
                && StraightQuotes(pkg.manifest.entry) && AllStraight(args))
            && s.args == args && s.entry == pkg.manifest.entry && |s.files| == |pkg.files|
            && (s.cmd <==> pkg.manifest.shell == "cmd")
            && forall i :: 0 <= i < |pkg.files| ==>
                 && h.base64Decode(s.files[i].base64) == h.base64Decode(pkg.files[i].contentBase64)
                 && Slashed(pkg.files[i].path, s.files[i].path, windowsHost)
  {
    var s := ScriptOf(h, pkg, args, windowsHost);
    PluginTemplateIsReadable();
    ScriptReadsBackExactlyWhenStraight(PLUGIN_TEMPLATE, s);
    forall i | 0 <= i < |pkg.files|
      ensures StraightQuotes(s.files[i].path) <==> StraightQuotes(pkg.files[i].path)
      ensures Slashed(pkg.files[i].path, s.files[i].path, windowsHost)
    {
      SlashesStayStraight(pkg.files[i].path, windowsHost);
    }
  }
}
