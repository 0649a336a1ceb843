/** What is read back from a rendered Caddy file. */
module CaddyRoundTrip {
  import opened SiteConfig
  import opened SiteRoundTrip
  import opened Text
  import opened Wrappers

  /** The port the parser reports: a TLS site on port 80 is served on 443. */
  function CanonicalPort(spec: SiteSpec): string {
    if IsTls(spec) && spec.listen == 80 then "443" else Decimal(spec.listen)
  }

  /// The address line

  /** The address without its scheme. */
  function Host(spec: SiteSpec): string {
    if spec.listen == 80 || (IsTls(spec) && spec.listen == 443) then spec.serverName
    else spec.serverName + [':'] + Decimal(spec.listen)
  }

  lemma HostChars(spec: SiteSpec)
    requires IsLabel(spec.serverName)
    ensures var h := Host(spec);
            h != "" && NoWhitespace(h) && Lacks(h, '/') && Lacks(h, '{') && IsLine(h) && h[0] != '#'
  {
    LabelChars(spec.serverName);
    DigitChars(spec.listen);
  }

  lemma AddressIsHost(spec: SiteSpec)
    ensures CaddyAddress(spec) == if IsTls(spec) then Host(spec) else "http://" + Host(spec)
  {
    if !IsTls(spec) && spec.listen != 80 {
      assert "http://" + spec.serverName + ":" + Decimal(spec.listen) == "http://" + (spec.serverName + [':'] + Decimal(spec.listen));
    }
  }

  lemma NoScheme(h: string)
    requires Lacks(h, '/')
    ensures !StartsWith(h, "http://") && !StartsWith(h, "https://")
    ensures TrimStartMatches(TrimStartMatches(h, "https://"), "http://") == h
  {
    NotPrefix(h, "http://", 6);
    NotPrefix(h, "https://", 7);
  }

  lemma Ports()
    ensures Decimal(80) == "80" && Decimal(443) == "443"
  {
    assert Decimal(8) == "8";
    Decimal443();
  }

  /** An address and its brace, trimmed of the brace and the blank before it. */
  lemma AddressTrimmed(a: string)
    requires a != "" && NoWhitespace(a) && Lacks(a, '{')
    ensures Trim(a + " {") == a + " {" && Trim(TrimEndChar(a + " {", '{')) == a
  {
    var t := a + " {";
    assert t[0] == a[0] && t[|t| - 1] == '{';
    assert t[..|t| - 1] == a + " ";
    assert TrimEndChar(a + " ", '{') == a + " ";
    assert TrimStart(a + " ") == a + " ";
    assert (a + " ")[..|a|] == a;
    assert TrimEnd(a) == a;
  }

  lemma SiteOf(p: ParsedSite, spec: SiteSpec, t: string)
    requires IsLabel(spec.serverName) && Trim(TrimEndChar(t, '{')) == CaddyAddress(spec)
    ensures CaddySite(p, t)
         == p.(ssl := IsTls(spec), serverName := Some(spec.serverName), listen := Some(CanonicalPort(spec)))
  {
    HostChars(spec);
    AddressIsHost(spec);
    if IsTls(spec) {
      NoScheme(Host(spec));
    } else {
      assert && StartsWith("http://" + Host(spec), "http://")
             && TrimStartMatches(TrimStartMatches("http://" + Host(spec), "https://"), "http://") == Host(spec) by {
        var a := "http://" + Host(spec);
        NotPrefix(a, "https://", 4);
        assert a[..7] == "http://" && a[7..] == Host(spec);
        NoScheme(Host(spec));
      }
    }
    assert RSplitOnce(Host(spec), ':')
         == if Host(spec) == spec.serverName then None else Some((spec.serverName, Decimal(spec.listen))) by {
      LabelChars(spec.serverName);
      DigitChars(spec.listen);
      if Host(spec) == spec.serverName {
        RSplitNone(spec.serverName, ':');
      } else {
        RSplitLast(spec.serverName, ':', Decimal(spec.listen));
      }
    }
    Ports();
    if Host(spec) != spec.serverName {
      DigitChars(spec.listen);
    } else {
      HostIsName(spec);
    }
  }

  lemma HostIsName(spec: SiteSpec)
    requires Host(spec) == spec.serverName
    ensures spec.listen == 80 || (IsTls(spec) && spec.listen == 443)
  {
    assert |spec.serverName + [':'] + Decimal(spec.listen)| > |spec.serverName|;
  }

  lemma AddressLine(spec: SiteSpec)
    requires IsLabel(spec.serverName)
    ensures CaddyLine(EMPTY, CaddyAddress(spec) + " {")
         == ParsedSite(Some(spec.serverName), Some(CanonicalPort(spec)), None, None, IsTls(spec))
  {
    var a := CaddyAddress(spec);
    HostChars(spec);
    AddressIsHost(spec);
    SchemeChars();
    assert a != "" && NoWhitespace(a) && Lacks(a, '{') && a[0] != '#';
    AddressTrimmed(a);
    NotPrefix(a + " {", "#", 0);
    SiteOf(EMPTY, spec, a + " {");
  }

  lemma SchemeChars()
    ensures NoWhitespace("http://") && Lacks("http://", '{') && IsLine("http://")
  {
  }

  /// The other lines

  lemma QuietCaddy(p: ParsedSite, line: string, t: string)
    requires p.serverName.Some? && Trim(line) == t && t != "" && t[0] != '#' && t[0] != 'r' && t[0] != 't'
    ensures CaddyLine(p, line) == p
  {
    NotPrefix(t, "#", 0);
    NotPrefix(t, "root *", 0);
    NotPrefix(t, "reverse_proxy", 0);
    NotPrefix(t, "tls ", 0);
  }

  lemma ProxyValueEffect(p: ParsedSite, line: string, t: string, word: string)
    requires p.serverName.Some? && p.proxyPass.None? && Trim(line) == t && |t| > 1 && t[0] == 'r' && t[1] == 'e'
    requires Directive(t, "reverse_proxy") == Some(word)
    ensures CaddyLine(p, line) == p.(proxyPass := Some(word))
  {
    NotPrefix(t, "#", 0);
    NotPrefix(t, "root *", 1);
    NotPrefix(t, "tls ", 0);
  }

  lemma ReverseProxyStart(rest: string)
    ensures var t := "reverse_proxy" + " " + rest; |t| > 1 && t[0] == 'r' && t[1] == 'e'
  {
  }

  lemma RootValueEffect(p: ParsedSite, line: string, t: string, word: string)
    requires p.serverName.Some? && p.root.None? && Trim(line) == t && |t| > 1 && t[0] == 'r' && t[1] == 'o'
    requires Directive(t, "root *") == Some(word)
    ensures CaddyLine(p, line) == p.(root := Some(word))
  {
    NotPrefix(t, "#", 0);
    NotPrefix(t, "reverse_proxy", 1);
    NotPrefix(t, "tls ", 0);
  }

  lemma CaddyRootLine(p: ParsedSite, root: string)
    requires p.serverName.Some? && p.root.None? && IsPlain(root) && root[0] == '/'
    ensures CaddyLine(p, Setting(INDENT, "root *", root)) == p.(root := Some(Word(root)))
  {
    PlainChars(root);
    SettingLine(INDENT, "root *", root);
    DirectiveOf("root *", root);
    RootValueEffect(p, Setting(INDENT, "root *", root), "root *" + " " + TrimEnd(root), Word(root));
  }

  lemma ServerLines(p: ParsedSite)
    requires p.serverName.Some?
    ensures CaddyLine(p, INDENT + "encode gzip") == p
    ensures CaddyLine(p, INDENT + "file_server {") == p
    ensures CaddyLine(p, INDENT + "}") == p && CaddyLine(p, "}") == p
  {
    FixedLine(INDENT, "encode gzip");
    QuietCaddy(p, INDENT + "encode gzip", "encode gzip");
    FixedLine(INDENT, "file_server {");
    QuietCaddy(p, INDENT + "file_server {", "file_server {");
    FixedLine(INDENT, "}");
    QuietCaddy(p, INDENT + "}", "}");
    FixedLine("", "}");
    assert "" + "}" == "}";
    QuietCaddy(p, "}", "}");
  }

  /// The whole file

  lemma FileServerFold(p: ParsedSite, spec: SiteSpec)
    requires p.serverName.Some? && p.root.None? && spec.proxyPass.None? && spec.root.Some? && ValidateRoot(spec.root.value).Ok?
    ensures Fold(CaddyLine, p, CaddyBody(spec)) == p.(root := Some(Word(spec.root.value)))
  {
    var root := spec.root.value;
    var p1 := p.(root := Some(Word(root)));
    var a := [Setting(INDENT, "root *", root), INDENT + "encode gzip"];
    var b := [INDENT + "file_server {", Setting(INDENT2, "index", spec.index), INDENT + "}"];
    FoldTwo(CaddyLine, p, a[0], a[1]);
    CaddyRootLine(p, root);
    ServerLines(p1);
    FoldThree(CaddyLine, p1, b[0], b[1], b[2]);
    assert CaddyLine(p1, Setting(INDENT2, "index", spec.index)) == p1 by {
      var text := "index" + " " + spec.index;
      TrimStartIndented(INDENT2, text);
      assert text == "" + text;
      TrimEndAfter("", text);
      QuietCaddy(p1, Setting(INDENT2, "index", spec.index), TrimEnd(text));
    }
    FoldJoin(CaddyLine, p, a, b);
    assert CaddyBody(spec) == a + b;
  }

  lemma CaddyBodyFold(p: ParsedSite, spec: SiteSpec)
    requires PrepareSpec(spec).Ok? && p.serverName.Some? && p.proxyPass.None? && p.root.None?
    ensures Fold(CaddyLine, p, CaddyBody(spec)) == p.(proxyPass := WordOf(spec.proxyPass), root := ShownRoot(spec))
  {
    if spec.proxyPass.Some? {
      ProxyFirst(spec.proxyPass.value);
      FoldOne(CaddyLine, p, Setting(INDENT, "reverse_proxy", spec.proxyPass.value));
      assert CaddyLine(p, Setting(INDENT, "reverse_proxy", spec.proxyPass.value)) == p.(proxyPass := Some(Word(spec.proxyPass.value))) by {
        PlainChars(spec.proxyPass.value);
        SettingLine(INDENT, "reverse_proxy", spec.proxyPass.value);
        DirectiveOf("reverse_proxy", spec.proxyPass.value);
        ReverseProxyStart(TrimEnd(spec.proxyPass.value));
        ProxyValueEffect(p, Setting(INDENT, "reverse_proxy", spec.proxyPass.value), "reverse_proxy" + " " + TrimEnd(spec.proxyPass.value), Word(spec.proxyPass.value));
      }
    } else {
      FileServerFold(p, spec);
    }
  }

  lemma CaddyLinesFold(spec: SiteSpec)
    requires PrepareSpec(spec).Ok?
    ensures Fold(CaddyLine, EMPTY, CaddyLines(spec) + ["}"])
         == ParsedSite(Some(spec.serverName), Some(CanonicalPort(spec)), WordOf(spec.proxyPass), ShownRoot(spec), IsTls(spec))
  {
    var head := [CaddyAddress(spec) + " {"];
    var p := ParsedSite(Some(spec.serverName), Some(CanonicalPort(spec)), None, None, IsTls(spec));
    FoldOne(CaddyLine, EMPTY, CaddyAddress(spec) + " {");
    AddressLine(spec);
    FoldJoin(CaddyLine, EMPTY, head, CaddyTls(spec));
    assert Fold(CaddyLine, p, CaddyTls(spec)) == p by {
      if spec.ssl == Custom {
        var value := CertPaths(spec).value.0 + " " + CertPaths(spec).value.1;
        FoldOne(CaddyLine, p, Setting(INDENT, "tls", value));
        assert CaddyLine(p, Setting(INDENT, "tls", value)) == p by {
          SettingLine(INDENT, "tls", value);
          var t := "tls" + " " + TrimEnd(value);
          NotPrefix(t, "#", 0);
          NotPrefix(t, "root *", 0);
          NotPrefix(t, "reverse_proxy", 0);
        }
      }
    }
    FoldJoin(CaddyLine, EMPTY, head + CaddyTls(spec), CaddyBody(spec));
    CaddyBodyFold(p, spec);
    FoldMore(CaddyLine, EMPTY, CaddyLines(spec), "}");
    ServerLines(p.(proxyPass := WordOf(spec.proxyPass), root := ShownRoot(spec)));
  }

  lemma CaddyNamesAreLines()
    ensures IsLine(INDENT) && IsLine(INDENT2) && IsLine("tls") && IsLine("reverse_proxy") && IsLine("root *") && IsLine("index")
    ensures IsLine(INDENT + "encode gzip") && IsLine(INDENT + "file_server {") && IsLine(INDENT + "}") && IsLine("}")
  {
  }

  lemma CaddyBodyIsLines(spec: SiteSpec, i: nat)
    requires PrepareSpec(spec).Ok? && i < |CaddyBody(spec)|
    ensures IsLine(CaddyBody(spec)[i])
  {
    CaddyNamesAreLines();
    if spec.proxyPass.Some? {
      PlainChars(spec.proxyPass.value);
      SettingIsLine(INDENT, "reverse_proxy", spec.proxyPass.value);
    } else {
      PlainChars(spec.root.value);
      PlainChars(spec.index);
      SettingIsLine(INDENT, "root *", spec.root.value);
      SettingIsLine(INDENT2, "index", spec.index);
    }
  }

  lemma CaddyLinesAreLines(spec: SiteSpec)
    requires PrepareSpec(spec).Ok?
    ensures forall i :: 0 <= i < |CaddyLines(spec)| ==> IsLine(CaddyLines(spec)[i])
  {
    HostChars(spec);
    AddressIsHost(spec);
    SchemeChars();
    assert IsLine(CaddyAddress(spec) + " {");
    if spec.ssl == Custom {
      assert IsLine(CaddyTls(spec)[0]) by {
        CaddyNamesAreLines();
        PathsAreLines(spec);
        SettingIsLine(INDENT, "tls", CertPaths(spec).value.0 + " " + CertPaths(spec).value.1);
      }
    }
    forall i | 0 <= i < |CaddyBody(spec)| {
      CaddyBodyIsLines(spec, i);
    }
  }

  /**
   Reading back a Caddy site printed from any accepted specification without extra configuration: the
   name, the canonical port and whether it is a TLS site come back exactly, and the proxy, or else the
   root, up to its first blank.
   */
  lemma CaddyRoundTrips(spec: SiteSpec)
    requires PrepareSpec(spec).Ok? && NoExtra(spec)
    ensures Fold(CaddyLine, EMPTY, Lines(CaddyText(spec)))
         == ParsedSite(Some(spec.serverName), Some(CanonicalPort(spec)), WordOf(spec.proxyPass), ShownRoot(spec), IsTls(spec))
  {
    CaddyLinesAreLines(spec);
    CaddyNamesAreLines();
    TextLines(CaddyLines(spec), Extra(spec.extra), "}");
    CaddyLinesFold(spec);
  }
}
