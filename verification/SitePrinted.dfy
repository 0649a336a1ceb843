/** The printed site files, line by line as Apache and Caddy read them, and what the parsers make of other lines. */
module SitePrinted {
  import opened SiteConfig
  import opened Text
  import opened Wrappers

  /// What is accepted

  /** Nothing that could end a line, a quotation or a block, or escape one. */
  predicate Harmless(value: string) {
    && value != ""
    && forall i :: 0 <= i < |value| ==> value[i] >= ' ' && !('\U{7F}' <= value[i] <= '\U{9F}') && value[i] !in "\"'<>{}\\"
  }

  predicate NameChar(c: char) {
    'a' <= c <= 'z' || 'A' <= c <= 'Z' || '0' <= c <= '9' || c in "._-"
  }

  /** A name is a file name: 1 to 128 letters, digits, dots, underscores and hyphens, starting with a letter or digit, never two dots. */
  predicate ProperName(name: string) {
    && 1 <= |name| <= 128 && name[0] !in "._-"
    && (forall i :: 0 <= i < |name| ==> NameChar(name[i]))
    && (forall i :: 0 <= i < |name| - 1 ==> name[i] != '.' || name[i + 1] != '.')
  }

  lemma NoTwoDots(s: string)
    ensures Contains(s, "..") <==> exists i :: 0 <= i < |s| - 1 && s[i] == '.' && s[i + 1] == '.'
  {
    if Contains(s, "..") {
      var i: nat :| i <= |s| && OccursAt(s, "..", i);
      assert s[i..i + 2][0] == '.' && s[i..i + 2][1] == '.';
      assert s[i] == '.' && s[i + 1] == '.';
    }
    if i :| 0 <= i < |s| - 1 && s[i] == '.' && s[i + 1] == '.' {
      assert s[i..i + 2] == "..";
      assert OccursAt(s, "..", i);
    }
  }

  lemma PlainExactly(value: string)
    ensures IsPlain(value) <==> Harmless(value)
  {
  }

  /** A specification is printed exactly when its name is proper, it has a port and a target, and its values are harmless. */
  lemma AcceptedExactly(spec: SiteSpec)
    ensures PrepareSpec(spec).Ok? <==>
            && ProperName(spec.serverName) && spec.listen > 0 && (spec.root.Some? || spec.proxyPass.Some?) && Harmless(spec.index)
            && (spec.root.Some? ==> Harmless(spec.root.value) && spec.root.value[0] == '/')
            && (spec.proxyPass.Some? ==> && Harmless(spec.proxyPass.value)
                                         && ("http://" <= spec.proxyPass.value || "https://" <= spec.proxyPass.value))
  {
    assert IsLabel(spec.serverName) <==> ProperName(spec.serverName) by {
      NoTwoDots(spec.serverName);
    }
    PlainExactly(spec.index);
    if spec.root.Some? {
      PlainExactly(spec.root.value);
    }
    if spec.proxyPass.Some? {
      PlainExactly(spec.proxyPass.value);
    }
  }

  /// What is printed

  lemma StemByChar(name: string)
    ensures |Stem(name)| == |name|
    ensures forall i :: 0 <= i < |name| ==> Stem(name)[i] == if name[i] == '.' then '-' else name[i]
  {
  }

  lemma Written(indent: string, name: string, value: string, head: string)
    requires indent + name + " " == head
    ensures Setting(indent, name, value) == head + value
  {
    assert indent + (name + " " + value) == indent + name + " " + value;
  }

  /** The number that digits stand for. */
  function Number(s: string): nat
    requires AllDigits(s)
  {
    if s == "" then 0 else 10 * Number(s[..|s| - 1]) + (s[|s| - 1] as nat - '0' as nat)
  }

  /** Ports are printed in full and without a leading zero. */
  lemma {:induction false} PortPrinted(n: nat)
    ensures Number(Decimal(n)) == n && (Decimal(n)[0] == '0' <==> n == 0)
  {
    if n >= 10 {
      PortPrinted(n / 10);
      assert Decimal(n)[..|Decimal(n)| - 1] == Decimal(n / 10);
    }
  }

  /** The certificate directive names the certificate and the key directive the key, where certbot or the panel keeps them. */
  lemma CertificatesPrinted(spec: SiteSpec)
    ensures spec.ssl == NoTls ==> CertLines(spec) == [] && CaddyTls(spec) == []
    ensures spec.ssl == LetsEncrypt ==>
              var live := "/etc/letsencrypt/live/" + spec.serverName;
              && CertLines(spec) == ["    SSLEngine on", "    SSLCertificateFile " + (live + "/fullchain.pem"),
                                     "    SSLCertificateKeyFile " + (live + "/privkey.pem")]
              && CaddyTls(spec) == []
    ensures spec.ssl == Custom ==>
              var own := "/etc/ssl/rustpanel/" + Stem(spec.serverName);
              && CertLines(spec) == ["    SSLEngine on", "    SSLCertificateFile " + (own + ".crt"), "    SSLCertificateKeyFile " + (own + ".key")]
              && CaddyTls(spec) == ["    tls " + (own + ".crt" + " " + (own + ".key"))]
  {
    if spec.ssl == LetsEncrypt {
      var live := "/etc/letsencrypt/live/" + spec.serverName;
      assert "/etc/letsencrypt/live/" + (spec.serverName + "/fullchain.pem") == live + "/fullchain.pem";
      assert "/etc/letsencrypt/live/" + (spec.serverName + "/privkey.pem") == live + "/privkey.pem";
      CertSettings(live + "/fullchain.pem", live + "/privkey.pem");
    }
    if spec.ssl == Custom {
      var own := "/etc/ssl/rustpanel/" + Stem(spec.serverName);
      assert "/etc/ssl/rustpanel/" + (Stem(spec.serverName) + ".crt") == own + ".crt";
      assert "/etc/ssl/rustpanel/" + (Stem(spec.serverName) + ".key") == own + ".key";
      CertSettings(own + ".crt", own + ".key");
    }
  }

  lemma CertSettings(cert: string, key: string)
    ensures INDENT + "SSLEngine on" == "    SSLEngine on"
    ensures Setting(INDENT, "SSLCertificateFile", cert) == "    SSLCertificateFile " + cert
    ensures Setting(INDENT, "SSLCertificateKeyFile", key) == "    SSLCertificateKeyFile " + key
    ensures Setting(INDENT, "tls", cert + " " + key) == "    tls " + (cert + " " + key)
  {
    hide Setting;
    Written(INDENT, "SSLCertificateFile", cert, "    SSLCertificateFile ");
    Written(INDENT, "SSLCertificateKeyFile", key, "    SSLCertificateKeyFile ");
    Written(INDENT, "tls", cert + " " + key, "    tls ");
  }

  /** What is added comes last inside the block, less the blanks around it; blank text adds nothing. */
  lemma TextPrinted(spec: SiteSpec)
    ensures var extra := if spec.extra.None? || Trim(spec.extra.value) == "" then "" else Trim(spec.extra.value) + "\n";
            && ApacheText(spec) == Unlines(ApacheLines(spec)) + extra + "</VirtualHost>\n"
            && CaddyText(spec) == Unlines(CaddyLines(spec)) + extra + "}\n"
            && CaddyLines(spec) == [CaddyAddress(spec) + " {"] + CaddyTls(spec) + CaddyBody(spec)
  {
    hide ApacheLines, Unlines, Trim;
    assert "</VirtualHost>" + "\n" == "</VirtualHost>\n" && "}" + "\n" == "}\n";
    Regroup(Unlines(ApacheLines(spec)) + Extra(spec.extra), "</VirtualHost>", "\n");
    Regroup(Unlines(CaddyLines(spec)) + Extra(spec.extra), "}", "\n");
  }

  lemma ApacheHeadPrinted(spec: SiteSpec)
    ensures ApacheLines(spec)
         == ["<VirtualHost *:" + Decimal(spec.listen) + ">", "    ServerName " + spec.serverName] + CertLines(spec) + ApacheBody(spec)
  {
    hide Setting, CertLines, ApacheBody;
    Written(INDENT, "ServerName", spec.serverName, "    ServerName ");
    assert "<VirtualHost *" + (":" + Decimal(spec.listen) + ">") == "<VirtualHost *:" + Decimal(spec.listen) + ">";
  }

  lemma ApacheProxyPrinted(spec: SiteSpec, proxy: string)
    requires spec.proxyPass == Some(proxy)
    ensures ApacheBody(spec) == ["    ProxyPreserveHost On", "    ProxyPass / " + proxy, "    ProxyPassReverse / " + proxy]
  {
    hide Setting;
    Written(INDENT, "ProxyPass", "/ " + proxy, "    ProxyPass ");
    Written(INDENT, "ProxyPassReverse", "/ " + proxy, "    ProxyPassReverse ");
    assert "    ProxyPass " + ("/ " + proxy) == "    ProxyPass / " + proxy;
    assert "    ProxyPassReverse " + ("/ " + proxy) == "    ProxyPassReverse / " + proxy;
    assert INDENT + "ProxyPreserveHost On" == "    ProxyPreserveHost On";
  }

  lemma ApacheRootPrinted(spec: SiteSpec, root: string)
    requires spec.proxyPass == None && spec.root == Some(root)
    ensures ApacheBody(spec) == ["    DocumentRoot " + root, "    <Directory \"" + root + "\">",
                                 "        Options FollowSymLinks", "        AllowOverride All", "        Require all granted",
                                 "        DirectoryIndex " + spec.index, "    </Directory>"]
  {
    hide Setting, INDENT, INDENT2;
    RootSettings(root, spec.index);
    OptionLines();
    MoreOptionLines();
  }

  lemma RootSettings(root: string, index: string)
    ensures Setting(INDENT, "DocumentRoot", root) == "    DocumentRoot " + root
    ensures Setting(INDENT2, "DirectoryIndex", index) == "        DirectoryIndex " + index
    ensures INDENT + ("<Directory \"" + (root + "\">")) == "    <Directory \"" + root + "\">"
  {
    hide Setting;
    Written(INDENT, "DocumentRoot", root, "    DocumentRoot ");
    Written(INDENT2, "DirectoryIndex", index, "        DirectoryIndex ");
    assert INDENT + ("<Directory \"" + (root + "\">")) == "    <Directory \"" + root + "\">";
  }

  lemma OptionLines()
    ensures INDENT2 + "Options FollowSymLinks" == "        Options FollowSymLinks"
    ensures INDENT + "</Directory>" == "    </Directory>"
  {
  }

  lemma MoreOptionLines()
    ensures INDENT2 + "AllowOverride All" == "        AllowOverride All"
    ensures INDENT2 + "Require all granted" == "        Require all granted"
  {
  }

  lemma CaddyPrinted(spec: SiteSpec)
    ensures spec.proxyPass.Some? ==> CaddyBody(spec) == ["    reverse_proxy " + spec.proxyPass.value]
    ensures spec.proxyPass.None? && spec.root.Some? ==>
              CaddyBody(spec) == ["    root * " + spec.root.value, "    encode gzip", "    file_server {",
                                  "        index " + spec.index, "    }"]
  {
    hide Setting;
    if spec.proxyPass.Some? {
      Written(INDENT, "reverse_proxy", spec.proxyPass.value, "    reverse_proxy ");
    } else if spec.root.Some? {
      Written(INDENT, "root *", spec.root.value, "    root * ");
      Written(INDENT2, "index", spec.index, "        index ");
      assert INDENT + "encode gzip" == "    encode gzip" && INDENT + "file_server {" == "    file_server {" && INDENT + "}" == "    }";
    }
  }

  /// What other lines are read as

  /** The first value given to a directive is the one that counts, and a TLS mark is never taken back. */
  lemma FirstValueCounts(p: ParsedSite, line: string)
    ensures var a, c := ApacheLine(p, line), CaddyLine(p, line);
            && (p.serverName.Some? ==> a.serverName == c.serverName == p.serverName)
            && (p.root.Some? ==> a.root == c.root == p.root)
            && (p.proxyPass.Some? ==> a.proxyPass == c.proxyPass == p.proxyPass)
            && (p.listen.Some? ==> a.listen == p.listen)
            && (p.ssl ==> a.ssl) && (p.ssl && p.serverName.Some? ==> c.ssl)
  {
    hide Trim, StartsWith, Directive, Unquoted, Words, PortOf, LooksTls, TrimEndChar, TrimStartMatches, RSplitOnce;
  }

  /** Comments say nothing, however they are indented. */
  lemma CommentsSkipped(p: ParsedSite, indent: string, rest: string)
    requires IsBlank(indent)
    ensures ApacheLine(p, indent + ("#" + rest)) == p && CaddyLine(p, indent + ("#" + rest)) == p
  {
    var line := indent + ("#" + rest);
    assert line == indent + "" + ("#" + rest);
    TrimLine(indent, "", "#" + rest);
    TrimEndAfter("", "#" + rest);
    assert Trim(line)[..1] == "#";
  }

  /** A value is its first word, less the quotation marks around it. */
  lemma TokenRead(blank: string, word: string, rest: string)
    requires IsBlank(blank) && word != "" && NoWhitespace(word) && Lacks(word, '"') && (rest != "" ==> IsWhitespace(rest[0]))
    ensures FirstToken(blank + (word + rest)) == Some(word) && FirstToken(blank + ("\"" + word + "\"" + rest)) == Some(word)
  {
    FirstWord(blank, word, rest);
    FirstWord(blank, "\"" + word + "\"", rest);
    TrimCharNone(word, '"');
    var quoted := "\"" + word + "\"";
    assert quoted[1..] == word + "\"" && (word + "\"")[..|word|] == word;
    assert TrimChar(quoted, '"') == TrimChar(word + "\"", '"') == TrimChar(word, '"');
  }

  lemma FirstWord(blank: string, word: string, rest: string)
    requires IsBlank(blank) && word != "" && NoWhitespace(word) && (rest != "" ==> IsWhitespace(rest[0]))
    ensures var words := Words(Trim(blank + (word + rest))); words != [] && words[0] == word
  {
    var value := word + rest;
    TrimStartIndented(blank, value);
    WordOfTrimmed(value);
    WordBefore(word, rest);
    TrimEndAfter("", value);
    assert "" + value == value;
    assert Words(TrimEnd(value))[0] == Word(TrimEnd(value));
  }
}
