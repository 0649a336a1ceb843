/** What is read back from a rendered site file: every field, exactly, for every specification the printers accept. */
module SiteRoundTrip {
  import opened SiteConfig
  import opened Text
  import opened Wrappers

  /// Values on a line

  lemma PlainChars(s: string)
    requires IsPlain(s)
    ensures IsLine(s) && Lacks(s, '"') && Lacks(s, '{') && Lacks(s, '}')
  {
  }

  lemma LabelChars(s: string)
    requires IsLabel(s)
    ensures IsLine(s) && NoWhitespace(s) && Lacks(s, '"') && Lacks(s, ':') && Lacks(s, '/') && Lacks(s, '{') && Lacks(s, ' ')
    ensures !IsWhitespace(s[0])
  {
  }

  lemma DigitChars(n: nat)
    ensures var d := Decimal(n);
            IsLine(d) && NoWhitespace(d) && Lacks(d, ':') && Lacks(d, '{') && Lacks(d, 'S') && Lacks(d, '/')
  {
  }

  /** The first token after a directive is the value's first word. */
  lemma FirstTokenOf(value: string)
    requires value != "" && !IsWhitespace(value[0]) && Lacks(value, '"')
    ensures FirstToken(" " + TrimEnd(value)) == Some(Word(value))
  {
    var t := TrimEnd(value);
    TrimEndAfter("", value);
    assert "" + value == value && "" + t == t;
    var tail := TrimEndCuts(value);
    TrimStartIndented(" ", t);
    assert TrimEnd(t) == t;
    assert Trim(" " + t) == t;
    WordOfTrimmed(value);
    WordIsWord(t);
    assert Words(t)[0] == Word(t) && Word(t) != "";
    TrimCharNone(Word(t), '"');
  }

  lemma WordsCons(a: string, rest: string)
    requires a != "" && NoWhitespace(a)
    ensures Words(a + " " + rest) == [a] + Words(rest)
  {
    var s := a + " " + rest;
    assert s == a + (" " + rest);
    WordBefore(a, " " + rest);
    assert s[|a|..] == " " + rest;
    assert (" " + rest)[1..] == rest;
  }

  /** The third token of a `ProxyPass` line. */
  lemma ThirdToken(name: string, value: string)
    requires name != "" && NoWhitespace(name) && value != "" && !IsWhitespace(value[0])
    ensures var words := Words(name + " " + TrimEnd("/ " + value));
            |words| > 2 && words[2] == Word(value)
  {
    var t := TrimEnd(value);
    TrimEndAfter("/ ", value);
    assert "/ " + t == "/" + " " + t;
    WordsCons(name, "/ " + t);
    WordsCons("/", t);
    WordOfTrimmed(value);
    assert Words(t)[0] == Word(t);
  }

  lemma LooksTlsValue(name: string, value: string)
    requires Lacks(name, 'S') && Lacks(name, ':')
    ensures LooksTls(name + " " + TrimEnd(value)) <==> LooksTls(value)
  {
    var head := name + " ";
    ContainsAfter(head, TrimEnd(value), "SSLEngine on");
    ContainsAfter(head, TrimEnd(value), ":443");
    ContainsTrimmed(value, "SSLEngine on");
    ContainsTrimmed(value, ":443");
  }

  lemma DirectoryIndexLacks()
    ensures Lacks("DirectoryIndex", 'S') && Lacks("DirectoryIndex", ':')
  {
  }

  lemma DocumentRootLacks()
    ensures Lacks("DocumentRoot", 'S') && Lacks("DocumentRoot", ':')
  {
  }

  lemma ProxyPassLacks()
    ensures Lacks("ProxyPass", 'S') && Lacks("ProxyPass", ':') && NoWhitespace("ProxyPass")
  {
  }

  lemma ProxyPassReverseLacks()
    ensures Lacks("ProxyPassReverse", 'S') && Lacks("ProxyPassReverse", ':')
  {
  }

  lemma LooksTlsNot(t: string)
    requires Lacks(t, ':') && Lacks(t, 'E')
    ensures !LooksTls(t)
  {
    ContainsNot(t, "SSLEngine on", 'E', 3);
    ContainsNot(t, ":443", ':', 0);
  }

  /// Apache, line by line

  /** A line that starts with no directive the parser knows. */
  predicate IsQuiet(t: string) {
    && !StartsWith(t, "#") && !StartsWith(t, "ServerName") && !StartsWith(t, "DocumentRoot")
    && !StartsWith(t, "ProxyPass ") && !StartsWith(t, "<VirtualHost")
  }

  lemma QuietByFirst(t: string)
    requires t != "" && t[0] != '#' && t[0] != 'S' && t[0] != 'D' && t[0] != 'P' && t[0] != '<'
    ensures IsQuiet(t)
  {
    NotPrefix(t, "#", 0);
    NotPrefix(t, "ServerName", 0);
    NotPrefix(t, "DocumentRoot", 0);
    NotPrefix(t, "ProxyPass ", 0);
    NotPrefix(t, "<VirtualHost", 0);
  }

  /** The first character is a directive's, but not the second, and the directive is not `ProxyPass`. */
  lemma QuietBySecond(t: string)
    requires |t| > 1 && (t[0] == 'S' || t[0] == 'D' || t[0] == '<') && t[1] != 'e' && t[1] != 'o' && t[1] != 'V'
    ensures IsQuiet(t)
  {
    NotPrefix(t, "#", 0);
    NotPrefix(t, "ServerName", 1);
    NotPrefix(t, "DocumentRoot", 1);
    NotPrefix(t, "ProxyPass ", 0);
    NotPrefix(t, "<VirtualHost", 1);
  }

  lemma QuietProxy(t: string, i: nat)
    requires i < |t| && i < |"ProxyPass "| && t[0] == 'P' && t[i] != "ProxyPass "[i]
    ensures IsQuiet(t)
  {
    NotPrefix(t, "#", 0);
    NotPrefix(t, "ServerName", 0);
    NotPrefix(t, "DocumentRoot", 0);
    NotPrefix(t, "ProxyPass ", i);
    NotPrefix(t, "<VirtualHost", 0);
  }

  /** A fixed line, trimmed. */
  lemma FixedLine(indent: string, s: string)
    requires IsBlank(indent) && s != "" && !IsWhitespace(s[0]) && !IsWhitespace(s[|s| - 1])
    ensures Trim(indent + s) == s
  {
    assert indent + "" + s == indent + s;
    TrimLine(indent, "", s);
    TrimWhole(s);
    assert "" + s == s;
  }

  /** A line with a value, trimmed. */
  lemma SettingLine(indent: string, name: string, value: string)
    requires IsBlank(indent) && name != "" && !IsWhitespace(name[0]) && value != "" && !IsWhitespace(value[0])
    ensures Trim(Setting(indent, name, value)) == name + " " + TrimEnd(value)
  {
    assert Setting(indent, name, value) == indent + (name + " ") + value;
    TrimLine(indent, name + " ", value);
  }

  lemma HostTls(d: string)
    requires AllDigits(d) && Lacks(d, ':') && Lacks(d, 'S')
    ensures LooksTls("<VirtualHost *" + (":" + d + ">")) <==> StartsWith(d, "443")
  {
    var port := ":" + d;
    ContainsNot("<VirtualHost *" + (port + ">"), "SSLEngine on", 'S', 0);
    ContainsAfter("<VirtualHost *", port + ">", ":443");
    ContainsBefore(port, ">", ":443");
    forall i: nat | i <= |port| && OccursAt(port, ":443", i)
      ensures i == 0
    {
      assert port[i..i + 4][0] == port[i];
    }
    if |d| >= 3 {
      assert port[0..4] == ":" + d[..3];
      assert ":443"[1..] == "443" && (":" + d[..3])[1..] == d[..3];
    }
    assert Contains(port, ":443") <==> OccursAt(port, ":443", 0);
  }

  lemma HostEffect(line: string, t: string, value: string, port: string)
    requires Trim(line) == t && t != "" && t[0] == '<' && StripPrefix(t, "<VirtualHost") == Some(value) && PortOf(value) == Some(port)
    ensures ApacheLine(EMPTY, line) == EMPTY.(listen := Some(port), ssl := LooksTls(t))
  {
    OnlyByFirst(t);
  }

  lemma HostLine(listen: Port)
    ensures var d := Decimal(listen);
            ApacheLine(EMPTY, "<VirtualHost *" + (":" + d + ">")) == EMPTY.(listen := Some(d), ssl := StartsWith(d, "443"))
  {
    var d := Decimal(listen);
    var t := "<VirtualHost *" + (":" + d + ">");
    DigitChars(listen);
    assert t[0] == '<' && t[|t| - 1] == '>';
    assert Trim(t) == t;
    assert StripPrefix(t, "<VirtualHost") == Some(" *" + (":" + d + ">")) by {
      assert "<VirtualHost" + " *" == "<VirtualHost *";
      assert t == "<VirtualHost" + (" *" + (":" + d + ">"));
      StripOwn("<VirtualHost", " *" + (":" + d + ">"));
    }
    assert PortOf(" *" + (":" + d + ">")) == Some(d) by {
      var value := " *" + (":" + d + ">");
      assert value == " *" + [':'] + (d + ">");
      IndexOfFirst(" *", ':', d + ">");
      assert value[3..] == d + ">";
      DigitsBefore(d, ">");
    }
    HostEffect(t, t, " *" + (":" + d + ">"), d);
    HostTls(d);
  }

  lemma NameTls(name: string)
    requires IsLabel(name)
    ensures !LooksTls("ServerName" + " " + name)
  {
    LabelChars(name);
    var t := "ServerName" + " " + name;
    ContainsNot(t, ":443", ':', 0);
    forall k: nat | k <= |t|
      ensures !OccursAt(t, "SSLEngine on", k)
    {
      if k + 12 <= |t| {
        assert t[k..k + 12][1] == t[k + 1] && t[k..k + 12][9] == t[k + 9];
      }
    }
  }

  lemma NameEffect(p: ParsedSite, line: string, t: string, word: string)
    requires Trim(line) == t && t != "" && t[0] == 'S' && p.serverName.None?
    requires Directive(t, "ServerName") == Some(word)
    ensures ApacheLine(p, line) == p.(serverName := Some(word), ssl := p.ssl || LooksTls(t))
  {
    OnlyByFirst(t);
  }

  lemma NameLine(p: ParsedSite, name: string)
    requires IsLabel(name) && p.serverName.None?
    ensures ApacheLine(p, Setting(INDENT, "ServerName", name)) == p.(serverName := Some(name))
  {
    LabelChars(name);
    SettingLine(INDENT, "ServerName", name);
    TrimWhole(name);
    DirectiveOf("ServerName", name);
    WordIsWord(name);
    NameEffect(p, Setting(INDENT, "ServerName", name), "ServerName" + " " + name, name);
    NameTls(name);
  }

  lemma EngineLine(p: ParsedSite)
    ensures ApacheLine(p, INDENT + "SSLEngine on") == p.(ssl := true)
  {
    FixedLine(INDENT, "SSLEngine on");
    QuietBySecond("SSLEngine on");
    assert OccursAt("SSLEngine on", "SSLEngine on", 0);
  }

  lemma CertLine(p: ParsedSite, name: string, path: string)
    requires |name| > 1 && name[0] == 'S' && name[1] == 'S' && path != "" && path[0] == '/' && p.ssl
    ensures ApacheLine(p, Setting(INDENT, name, path)) == p
  {
    SettingLine(INDENT, name, path);
    QuietBySecond(name + " " + TrimEnd(path));
  }

  lemma PreserveLine(p: ParsedSite)
    ensures ApacheLine(p, INDENT + "ProxyPreserveHost On") == p
  {
    FixedLine(INDENT, "ProxyPreserveHost On");
    QuietProxy("ProxyPreserveHost On", 6);
    LooksTlsNot("ProxyPreserveHost On");
  }

  /** The only directive the line can be is the one its first character starts. */
  lemma OnlyByFirst(t: string)
    requires t != "" && t[0] != '#'
    ensures !StartsWith(t, "#")
    ensures t[0] != 'S' ==> !StartsWith(t, "ServerName")
    ensures t[0] != 'D' ==> !StartsWith(t, "DocumentRoot")
    ensures t[0] != 'P' ==> !StartsWith(t, "ProxyPass ")
    ensures t[0] != '<' ==> !StartsWith(t, "<VirtualHost")
  {
    if t[0] != 'S' {
      NotPrefix(t, "ServerName", 0);
    }
    if t[0] != 'D' {
      NotPrefix(t, "DocumentRoot", 0);
    }
    if t[0] != 'P' {
      NotPrefix(t, "ProxyPass ", 0);
    }
    if t[0] != '<' {
      NotPrefix(t, "<VirtualHost", 0);
    }
    NotPrefix(t, "#", 0);
  }

  lemma ProxyEffect(p: ParsedSite, line: string, t: string, word: string)
    requires Trim(line) == t && t != "" && t[0] == 'P' && p.proxyPass.None?
    requires StripPrefix(t, "ProxyPass ") != None && |Words(t)| > 2 && Words(t)[2] == word
    ensures ApacheLine(p, line) == p.(proxyPass := Some(word), ssl := p.ssl || LooksTls(t))
  {
    OnlyByFirst(t);
  }

  lemma ProxyStart(rest: string)
    ensures var t := "ProxyPass" + " " + rest; StripPrefix(t, "ProxyPass ") != None && t != "" && t[0] == 'P'
  {
    assert "ProxyPass" + " " == "ProxyPass ";
    StripOwn("ProxyPass ", rest);
  }

  lemma ProxyLine(p: ParsedSite, proxy: string)
    requires IsPlain(proxy) && proxy[0] == 'h' && p.proxyPass.None?
    ensures ApacheLine(p, Setting(INDENT, "ProxyPass", "/ " + proxy))
         == p.(proxyPass := Some(Word(proxy)), ssl := p.ssl || LooksTls(proxy))
  {
    var value := "/ " + proxy;
    SettingLine(INDENT, "ProxyPass", value);
    ProxyStart(TrimEnd(value));
    ProxyToken(proxy);
    ProxyEffect(p, Setting(INDENT, "ProxyPass", value), "ProxyPass" + " " + TrimEnd(value), Word(proxy));
    ProxyTls(proxy);
  }

  lemma ProxyToken(proxy: string)
    requires proxy != "" && proxy[0] == 'h'
    ensures var words := Words("ProxyPass" + " " + TrimEnd("/ " + proxy)); |words| > 2 && words[2] == Word(proxy)
  {
    assert NoWhitespace("ProxyPass");
    ThirdToken("ProxyPass", proxy);
  }

  lemma ProxyTls(proxy: string)
    ensures LooksTls("ProxyPass" + " " + TrimEnd("/ " + proxy)) <==> LooksTls(proxy)
  {
    ProxyPassLacks();
    LooksTlsValue("ProxyPass", "/ " + proxy);
    ContainsAfter("/ ", proxy, "SSLEngine on");
    ContainsAfter("/ ", proxy, ":443");
  }

  lemma ReverseLine(p: ParsedSite, proxy: string)
    requires IsPlain(proxy) && proxy[0] == 'h'
    ensures ApacheLine(p, Setting(INDENT, "ProxyPassReverse", "/ " + proxy)) == p.(ssl := p.ssl || LooksTls(proxy))
  {
    var value := "/ " + proxy;
    SettingLine(INDENT, "ProxyPassReverse", value);
    QuietProxy("ProxyPassReverse" + " " + TrimEnd(value), 9);
    ProxyPassReverseLacks();
    LooksTlsValue("ProxyPassReverse", value);
    ContainsAfter("/ ", proxy, "SSLEngine on");
    ContainsAfter("/ ", proxy, ":443");
  }

  lemma RootEffect(p: ParsedSite, line: string, t: string, word: string)
    requires Trim(line) == t && t != "" && t[0] == 'D' && p.root.None?
    requires Directive(t, "DocumentRoot") == Some(word) && Lacks(word, '"')
    ensures ApacheLine(p, line) == p.(root := Some(word), ssl := p.ssl || LooksTls(t))
  {
    OnlyByFirst(t);
    TrimCharNone(word, '"');
  }

  /** A directive, a blank, and a value. */
  lemma DirectiveOf(name: string, value: string)
    requires value != "" && !IsWhitespace(value[0]) && Lacks(value, '"')
    ensures Directive(name + " " + TrimEnd(value), name) == Some(Word(value))
  {
    assert name + " " + TrimEnd(value) == name + (" " + TrimEnd(value));
    StripOwn(name, " " + TrimEnd(value));
    FirstTokenOf(value);
  }

  lemma RootLine(p: ParsedSite, root: string)
    requires IsPlain(root) && root[0] == '/' && p.root.None?
    ensures ApacheLine(p, Setting(INDENT, "DocumentRoot", root)) == p.(root := Some(Word(root)), ssl := p.ssl || LooksTls(root))
  {
    PlainChars(root);
    SettingLine(INDENT, "DocumentRoot", root);
    DirectiveOf("DocumentRoot", root);
    RootEffect(p, Setting(INDENT, "DocumentRoot", root), "DocumentRoot" + " " + TrimEnd(root), Word(root));
    DocumentRootLacks();
    LooksTlsValue("DocumentRoot", root);
  }

  lemma DirectoryLine(p: ParsedSite, root: string)
    requires IsPlain(root) && root[0] == '/'
    ensures ApacheLine(p, INDENT + ("<Directory \"" + (root + "\">"))) == p.(ssl := p.ssl || LooksTls(root))
  {
    var t := "<Directory \"" + (root + "\">");
    assert t[0] == '<' && t[1] == 'D' && t[|t| - 1] == '>';
    FixedLine(INDENT, t);
    QuietBySecond(t);
    ContainsAfter("<Directory \"", root + "\">", "SSLEngine on");
    ContainsAfter("<Directory \"", root + "\">", ":443");
    ContainsBefore(root, "\">", "SSLEngine on");
    ContainsBefore(root, "\">", ":443");
  }

  lemma FixedQuietLine(p: ParsedSite, indent: string, s: string)
    requires IsBlank(indent) && s != "" && !IsWhitespace(s[0]) && !IsWhitespace(s[|s| - 1])
    requires IsQuiet(s) && Lacks(s, ':') && Lacks(s, 'E')
    ensures ApacheLine(p, indent + s) == p
  {
    FixedLine(indent, s);
    LooksTlsNot(s);
  }

  lemma PlainLine(p: ParsedSite, s: string)
    requires s != "" && s[0] != '#' && s[0] != 'S' && s[0] != 'D' && s[0] != 'P' && s[0] != '<'
    requires !IsWhitespace(s[0]) && !IsWhitespace(s[|s| - 1]) && Lacks(s, ':') && Lacks(s, 'E')
    ensures ApacheLine(p, INDENT2 + s) == p
  {
    QuietByFirst(s);
    FixedQuietLine(p, INDENT2, s);
  }

  lemma OptionsArePlain()
    ensures Lacks("Options FollowSymLinks", ':') && Lacks("Options FollowSymLinks", 'E')
    ensures Lacks("AllowOverride All", ':') && Lacks("AllowOverride All", 'E')
    ensures Lacks("Require all granted", ':') && Lacks("Require all granted", 'E')
  {
  }

  lemma ClosingLines(p: ParsedSite)
    ensures ApacheLine(p, INDENT + "</Directory>") == p
    ensures ApacheLine(p, "</VirtualHost>") == p
  {
    QuietBySecond("</Directory>");
    FixedQuietLine(p, INDENT, "</Directory>");
    QuietBySecond("</VirtualHost>");
    FixedQuietLine(p, "", "</VirtualHost>");
    assert "" + "</VirtualHost>" == "</VirtualHost>";
  }

  /** An index list may begin with blanks, and may even be blank. */
  lemma IndexLine(p: ParsedSite, index: string)
    requires IsPlain(index)
    ensures ApacheLine(p, Setting(INDENT2, "DirectoryIndex", index)) == p.(ssl := p.ssl || LooksTls(index))
  {
    var text := "DirectoryIndex" + " " + index;
    var tail := TrimEndCuts(text);
    TrimStartIndented(INDENT2, text);
    IndexHead(text);
    QuietBySecond(TrimEnd(text));
    ContainsTrimmed(text, "SSLEngine on");
    ContainsTrimmed(text, ":443");
    DirectoryIndexLacks();
    var head := "DirectoryIndex" + " ";
    ContainsAfter(head, index, "SSLEngine on");
    ContainsAfter(head, index, ":443");
  }

  lemma IndexHead(text: string)
    requires |text| > 1 && text[0] == 'D' && text[1] == 'i'
    ensures |TrimEnd(text)| > 1 && TrimEnd(text)[0] == 'D' && TrimEnd(text)[1] == 'i'
  {
    assert text == "D" + text[1..];
    TrimEndAfter("D", text[1..]);
  }

  /// Apache, the whole file

  lemma {:induction false} FoldJoin(step: (ParsedSite, string) -> ParsedSite, p: ParsedSite, a: seq<string>, b: seq<string>)
    ensures Fold(step, p, a + b) == Fold(step, Fold(step, p, a), b)
  {
    if b == [] {
      assert a + b == a;
    } else {
      var front := b[..|b| - 1];
      assert (a + b)[..|a + b| - 1] == a + front;
      FoldJoin(step, p, a, front);
    }
  }

  lemma FoldOne(step: (ParsedSite, string) -> ParsedSite, p: ParsedSite, line: string)
    ensures Fold(step, p, [line]) == step(p, line)
  {
    assert [line][..0] == [];
    assert Fold(step, p, []) == p;
  }

  lemma FoldMore(step: (ParsedSite, string) -> ParsedSite, p: ParsedSite, lines: seq<string>, line: string)
    ensures Fold(step, p, lines + [line]) == step(Fold(step, p, lines), line)
  {
    assert (lines + [line])[..|lines|] == lines;
  }

  lemma FoldTwo(step: (ParsedSite, string) -> ParsedSite, p: ParsedSite, a: string, b: string)
    ensures Fold(step, p, [a, b]) == step(step(p, a), b)
  {
    FoldOne(step, p, a);
    FoldMore(step, p, [a], b);
    assert [a] + [b] == [a, b];
  }

  lemma FoldThree(step: (ParsedSite, string) -> ParsedSite, p: ParsedSite, a: string, b: string, c: string)
    ensures Fold(step, p, [a, b, c]) == step(step(step(p, a), b), c)
  {
    FoldTwo(step, p, a, b);
    FoldMore(step, p, [a, b], c);
    assert [a, b] + [c] == [a, b, c];
  }

  lemma CertFold(p: ParsedSite, spec: SiteSpec)
    ensures Fold(ApacheLine, p, CertLines(spec)) == p.(ssl := p.ssl || IsTls(spec))
  {
    if IsTls(spec) {
      var paths := CertPaths(spec).value;
      FoldThree(ApacheLine, p, INDENT + "SSLEngine on", Setting(INDENT, "SSLCertificateFile", paths.0),
                Setting(INDENT, "SSLCertificateKeyFile", paths.1));
      EngineLine(p);
      CertLine(p.(ssl := true), "SSLCertificateFile", paths.0);
      CertLine(p.(ssl := true), "SSLCertificateKeyFile", paths.1);
    }
  }

  lemma ProxyFold(p: ParsedSite, spec: SiteSpec)
    requires spec.proxyPass.Some? && ValidateProxy(spec.proxyPass.value).Ok? && p.proxyPass.None?
    ensures var proxy := spec.proxyPass.value;
            Fold(ApacheLine, p, ApacheBody(spec)) == p.(proxyPass := Some(Word(proxy)), ssl := p.ssl || LooksTls(proxy))
  {
    var proxy := spec.proxyPass.value;
    ProxyFirst(proxy);
    FoldThree(ApacheLine, p, INDENT + "ProxyPreserveHost On", Setting(INDENT, "ProxyPass", "/ " + proxy),
                Setting(INDENT, "ProxyPassReverse", "/ " + proxy));
    PreserveLine(p);
    ProxyLine(p, proxy);
    ReverseLine(p.(proxyPass := Some(Word(proxy)), ssl := p.ssl || LooksTls(proxy)), proxy);
  }

  lemma ProxyFirst(proxy: string)
    requires ValidateProxy(proxy).Ok?
    ensures IsPlain(proxy) && proxy[0] == 'h'
  {
    if proxy[0] != 'h' {
      NotPrefix(proxy, "http://", 0);
      NotPrefix(proxy, "https://", 0);
    }
  }

  lemma RootStart(p: ParsedSite, root: string)
    requires ValidateRoot(root).Ok? && p.root.None?
    ensures Fold(ApacheLine, p, [Setting(INDENT, "DocumentRoot", root), INDENT + ("<Directory \"" + (root + "\">"))])
         == p.(root := Some(Word(root)), ssl := p.ssl || LooksTls(root))
  {
    FoldTwo(ApacheLine, p, Setting(INDENT, "DocumentRoot", root), INDENT + ("<Directory \"" + (root + "\">")));
    RootLine(p, root);
    DirectoryLine(p.(root := Some(Word(root)), ssl := p.ssl || LooksTls(root)), root);
  }

  lemma OptionsFold(p: ParsedSite)
    ensures Fold(ApacheLine, p, [INDENT2 + "Options FollowSymLinks", INDENT2 + "AllowOverride All", INDENT2 + "Require all granted"]) == p
  {
    FoldThree(ApacheLine, p, INDENT2 + "Options FollowSymLinks", INDENT2 + "AllowOverride All", INDENT2 + "Require all granted");
    OptionsArePlain();
    PlainLine(p, "Options FollowSymLinks");
    PlainLine(p, "AllowOverride All");
    PlainLine(p, "Require all granted");
  }

  lemma RootEnd(p: ParsedSite, index: string)
    requires IsPlain(index)
    ensures Fold(ApacheLine, p, [Setting(INDENT2, "DirectoryIndex", index), INDENT + "</Directory>"]) == p.(ssl := p.ssl || LooksTls(index))
  {
    FoldTwo(ApacheLine, p, Setting(INDENT2, "DirectoryIndex", index), INDENT + "</Directory>");
    IndexLine(p, index);
    ClosingLines(p.(ssl := p.ssl || LooksTls(index)));
  }

  lemma RootFold(p: ParsedSite, spec: SiteSpec)
    requires spec.proxyPass.None? && spec.root.Some? && ValidateRoot(spec.root.value).Ok? && IsPlain(spec.index) && p.root.None?
    ensures var root := spec.root.value;
            Fold(ApacheLine, p, ApacheBody(spec)) == p.(root := Some(Word(root)), ssl := p.ssl || LooksTls(root) || LooksTls(spec.index))
  {
    var root := spec.root.value;
    var a := [Setting(INDENT, "DocumentRoot", root), INDENT + ("<Directory \"" + (root + "\">"))];
    var b := [INDENT2 + "Options FollowSymLinks", INDENT2 + "AllowOverride All", INDENT2 + "Require all granted"];
    var c := [Setting(INDENT2, "DirectoryIndex", spec.index), INDENT + "</Directory>"];
    assert ApacheBody(spec) == a + b + c;
    FoldJoin(ApacheLine, p, a, b);
    FoldJoin(ApacheLine, p, a + b, c);
    RootStart(p, root);
    var p1 := p.(root := Some(Word(root)), ssl := p.ssl || LooksTls(root));
    OptionsFold(p1);
    RootEnd(p1, spec.index);
  }

  /** What of the specification the body shows. */
  function BodyTls(spec: SiteSpec): bool {
    if spec.proxyPass.Some? then LooksTls(spec.proxyPass.value)
    else if spec.root.Some? then LooksTls(spec.root.value) || LooksTls(spec.index)
    else false
  }

  function WordOf(o: Option<string>): Option<string> {
    if o.Some? then Some(Word(o.value)) else None
  }

  function ShownRoot(spec: SiteSpec): Option<string> {
    if spec.proxyPass.Some? then None else WordOf(spec.root)
  }

  lemma BodyFold(p: ParsedSite, spec: SiteSpec)
    requires PrepareSpec(spec).Ok? && p.proxyPass.None? && p.root.None?
    ensures Fold(ApacheLine, p, ApacheBody(spec))
         == p.(proxyPass := WordOf(spec.proxyPass), root := ShownRoot(spec), ssl := p.ssl || BodyTls(spec))
  {
    if spec.proxyPass.Some? {
      ProxyFold(p, spec);
    } else {
      RootFold(p, spec);
    }
  }

  lemma ApacheLinesFold(spec: SiteSpec)
    requires PrepareSpec(spec).Ok?
    ensures Fold(ApacheLine, EMPTY, ApacheLines(spec) + ["</VirtualHost>"])
         == ParsedSite(Some(spec.serverName), Some(Decimal(spec.listen)), WordOf(spec.proxyPass), ShownRoot(spec),
                       StartsWith(Decimal(spec.listen), "443") || IsTls(spec) || BodyTls(spec))
  {
    var d := Decimal(spec.listen);
    var head := ["<VirtualHost *" + (":" + d + ">"), Setting(INDENT, "ServerName", spec.serverName)];
    var p := EMPTY.(listen := Some(d), ssl := StartsWith(d, "443"), serverName := Some(spec.serverName));
    assert var d := Decimal(spec.listen);
            Fold(ApacheLine, EMPTY, ["<VirtualHost *" + (":" + d + ">"), Setting(INDENT, "ServerName", spec.serverName)])
            == EMPTY.(listen := Some(d), ssl := StartsWith(d, "443"), serverName := Some(spec.serverName)) by {
      var d := Decimal(spec.listen);
      FoldTwo(ApacheLine, EMPTY, "<VirtualHost *" + (":" + d + ">"), Setting(INDENT, "ServerName", spec.serverName));
      HostLine(spec.listen);
      NameLine(EMPTY.(listen := Some(d), ssl := StartsWith(d, "443")), spec.serverName);
    }
    FoldJoin(ApacheLine, EMPTY, head, CertLines(spec));
    CertFold(p, spec);
    var p1 := p.(ssl := p.ssl || IsTls(spec));
    FoldJoin(ApacheLine, EMPTY, head + CertLines(spec), ApacheBody(spec));
    BodyFold(p1, spec);
    FoldMore(ApacheLine, EMPTY, ApacheLines(spec), "</VirtualHost>");
    ClosingLines(p1.(proxyPass := WordOf(spec.proxyPass), root := ShownRoot(spec), ssl := p1.ssl || BodyTls(spec)));
  }

  /// The text and its lines

  predicate NoExtra(spec: SiteSpec) {
    Extra(spec.extra) == ""
  }

  lemma SettingIsLine(indent: string, name: string, value: string)
    requires IsLine(indent) && IsLine(name) && IsLine(value)
    ensures IsLine(Setting(indent, name, value))
  {
  }

  lemma JoinIsLine(a: string, b: string)
    requires IsLine(a) && IsLine(b)
    ensures IsLine(a + b)
  {
  }

  lemma PathPartsAreLines()
    ensures IsLine("/etc/letsencrypt/live/") && IsLine("/fullchain.pem") && IsLine("/privkey.pem")
    ensures IsLine("/etc/ssl/rustpanel/") && IsLine(".crt") && IsLine(".key")
  {
  }

  lemma PathsAreLines(spec: SiteSpec)
    requires IsLabel(spec.serverName) && IsTls(spec)
    ensures IsLine(CertPaths(spec).value.0) && IsLine(CertPaths(spec).value.1)
  {
    PathPartsAreLines();
    LabelChars(spec.serverName);
    StemIsLine(spec.serverName);
    var name := spec.serverName;
    JoinIsLine(name, "/fullchain.pem");
    JoinIsLine("/etc/letsencrypt/live/", name + "/fullchain.pem");
    JoinIsLine(name, "/privkey.pem");
    JoinIsLine("/etc/letsencrypt/live/", name + "/privkey.pem");
    JoinIsLine(Stem(name), ".crt");
    JoinIsLine("/etc/ssl/rustpanel/", Stem(name) + ".crt");
    JoinIsLine(Stem(name), ".key");
    JoinIsLine("/etc/ssl/rustpanel/", Stem(name) + ".key");
  }

  lemma CertNamesAreLines()
    ensures IsLine(INDENT) && IsLine(INDENT + "SSLEngine on") && IsLine("SSLCertificateFile") && IsLine("SSLCertificateKeyFile")
  {
  }

  lemma CertsAreLines(spec: SiteSpec, i: nat)
    requires IsLabel(spec.serverName) && i < |CertLines(spec)|
    ensures IsLine(CertLines(spec)[i])
  {
    PathsAreLines(spec);
    CertNamesAreLines();
    var paths := CertPaths(spec).value;
    SettingIsLine(INDENT, "SSLCertificateFile", paths.0);
    SettingIsLine(INDENT, "SSLCertificateKeyFile", paths.1);
  }

  lemma StemIsLine(name: string)
    requires IsLine(name)
    ensures IsLine(Stem(name))
  {
  }

  lemma ProxyNamesAreLines()
    ensures IsLine(INDENT) && IsLine(INDENT + "ProxyPreserveHost On") && IsLine("ProxyPass") && IsLine("ProxyPassReverse")
  {
  }

  lemma RootNamesAreLines()
    ensures IsLine(INDENT) && IsLine("DocumentRoot") && IsLine(INDENT + "</Directory>") && IsLine("<Directory \"") && IsLine("\">")
  {
  }

  lemma OptionNamesAreLines()
    ensures IsLine(INDENT2) && IsLine("DirectoryIndex") && IsLine(INDENT2 + "Options FollowSymLinks")
    ensures IsLine(INDENT2 + "AllowOverride All") && IsLine(INDENT2 + "Require all granted")
  {
  }

  lemma BodyIsLines(spec: SiteSpec, i: nat)
    requires PrepareSpec(spec).Ok? && i < |ApacheBody(spec)|
    ensures IsLine(ApacheBody(spec)[i])
  {
    if spec.proxyPass.Some? {
      ProxyNamesAreLines();
      PlainChars(spec.proxyPass.value);
      SettingIsLine(INDENT, "ProxyPass", "/ " + spec.proxyPass.value);
      SettingIsLine(INDENT, "ProxyPassReverse", "/ " + spec.proxyPass.value);
    } else {
      RootNamesAreLines();
      OptionNamesAreLines();
      PlainChars(spec.root.value);
      PlainChars(spec.index);
      SettingIsLine(INDENT, "DocumentRoot", spec.root.value);
      JoinIsLine(spec.root.value, "\">");
      JoinIsLine("<Directory \"", spec.root.value + "\">");
      JoinIsLine(INDENT, "<Directory \"" + (spec.root.value + "\">"));
      SettingIsLine(INDENT2, "DirectoryIndex", spec.index);
    }
  }

  lemma ApacheLinesAreLines(spec: SiteSpec)
    requires PrepareSpec(spec).Ok?
    ensures forall i :: 0 <= i < |ApacheLines(spec)| ==> IsLine(ApacheLines(spec)[i])
  {
    var d := Decimal(spec.listen);
    DigitChars(spec.listen);
    LabelChars(spec.serverName);
    SettingIsLine(INDENT, "ServerName", spec.serverName);
    forall i | 0 <= i < |CertLines(spec)| {
      CertsAreLines(spec, i);
    }
    forall i | 0 <= i < |ApacheBody(spec)| {
      BodyIsLines(spec, i);
    }
    assert IsLine("<VirtualHost *" + (":" + d + ">"));
  }

  /** A text that is its lines, one more line, and no extra. */
  lemma TextLines(lines: seq<string>, extra: string, last: string)
    requires extra == "" && IsLine(last) && forall i :: 0 <= i < |lines| ==> IsLine(lines[i])
    ensures Lines(Unlines(lines) + extra + last + "\n") == lines + [last]
  {
    UnlinesPush(lines, last);
    assert Unlines(lines) + extra == Unlines(lines);
    LinesOfUnlines(lines + [last]);
  }

  /**
   Reading back an Apache site printed from any accepted specification without extra configuration:
   name and port come back exactly, the proxy or else the root up to its first blank, and the site is
   taken for a TLS one exactly when it is one, or the port, the proxy, the root or the index list has
   one of the two marks the parser looks for.
   */
  lemma ApacheRoundTrip(spec: SiteSpec)
    requires PrepareSpec(spec).Ok? && NoExtra(spec)
    ensures Fold(ApacheLine, EMPTY, Lines(ApacheText(spec)))
         == ParsedSite(Some(spec.serverName), Some(Decimal(spec.listen)), WordOf(spec.proxyPass), ShownRoot(spec),
                       StartsWith(Decimal(spec.listen), "443") || IsTls(spec) || BodyTls(spec))
  {
    ApacheLinesAreLines(spec);
    TextLines(ApacheLines(spec), Extra(spec.extra), "</VirtualHost>");
    ApacheLinesFold(spec);
  }

  /** Proxy and root come back whole exactly when they have no blank in them. */
  lemma WholeWithoutBlanks(spec: SiteSpec)
    requires PrepareSpec(spec).Ok?
    ensures WordOf(spec.proxyPass) == spec.proxyPass <==> spec.proxyPass.None? || NoWhitespace(spec.proxyPass.value)
    ensures WordOf(spec.root) == spec.root <==> spec.root.None? || NoWhitespace(spec.root.value)
  {
    if spec.proxyPass.Some? {
      WordIsWord(spec.proxyPass.value);
    }
    if spec.root.Some? {
      WordIsWord(spec.root.value);
    }
  }

  lemma DecimalStart(n: nat)
    ensures StartsWith(Decimal(n), "443") <==> Decimal(n) == "443" || (n >= 10 && StartsWith(Decimal(n / 10), "443"))
  {
  }

  lemma {:induction false} DecimalInjective(m: nat, n: nat)
    requires Decimal(m) == Decimal(n)
    ensures m == n
  {
    var a, b := Decimal(m), Decimal(n);
    assert (|a| == 1 <==> m < 10) && (|b| == 1 <==> n < 10);
    if m < 10 {
      assert a[0] == b[0];
    } else {
      assert a[..|a| - 1] == Decimal(m / 10) && b[..|b| - 1] == Decimal(n / 10);
      assert a[|a| - 1] == b[|b| - 1];
      DecimalInjective(m / 10, n / 10);
    }
  }

  lemma Decimal443()
    ensures Decimal(443) == "443"
  {
    assert Decimal(4) == "4" && Decimal(44) == "44";
  }

  /** The ports whose `:443` misleads the parser, besides 443 itself. */
  lemma PortsStarting443(n: Port)
    ensures StartsWith(Decimal(n), "443") <==> n == 443 || 4430 <= n <= 4439 || 44300 <= n <= 44399
  {
    Decimal443();
    forall m: nat | Decimal(m) == "443"
      ensures m == 443
    {
      DecimalInjective(m, 443);
    }
    DecimalStart(n);
    DecimalStart(n / 10);
    DecimalStart(n / 10 / 10);
    DecimalStart(n / 10 / 10 / 10);
    DecimalStart(n / 10 / 10 / 10 / 10);
  }
}
