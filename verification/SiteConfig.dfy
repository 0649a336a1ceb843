/**
 The printers and parsers of web-server site files, src/models/webserver/config.rs: what a rendered
 site says when it is read back.
 */
module SiteConfig {
  import opened Text
  import opened Wrappers

  type Port = n: nat | n < 65536

  datatype SslMode = NoTls | LetsEncrypt | Custom

  datatype SiteSpec = SiteSpec(
    serverName: string, root: Option<string>, listen: Port, proxyPass: Option<string>,
    ssl: SslMode, index: string, extra: Option<string>)

  datatype ParsedSite = ParsedSite(
    serverName: Option<string>, listen: Option<string>, proxyPass: Option<string>, root: Option<string>, ssl: bool)

  datatype SiteError = BadName | BadPort | NoTarget | Unsupported(field: string) | RelativeRoot | BadScheme

  const EMPTY := ParsedSite(None, None, None, None, false)

  predicate IsTls(spec: SiteSpec) {
    spec.ssl != NoTls
  }

  /// Validation

  predicate IsLabelChar(c: char) {
    'a' <= c <= 'z' || 'A' <= c <= 'Z' || '0' <= c <= '9' || c == '.' || c == '_' || c == '-'
  }

  predicate IsAlphanumeric(c: char) {
    'a' <= c <= 'z' || 'A' <= c <= 'Z' || '0' <= c <= '9'
  }

  predicate IsLabel(s: string) {
    && s != "" && |s| <= 128 && !Contains(s, "..") && IsAlphanumeric(s[0])
    && forall i :: 0 <= i < |s| ==> IsLabelChar(s[i])
  }

  predicate IsControl(c: char) {
    c < ' ' || '\U{7F}' <= c <= '\U{9F}'
  }

  predicate IsPlainChar(c: char) {
    && !IsControl(c) && c != '"' && c != '\'' && c != '<' && c != '>' && c != '{' && c != '}' && c != '\\'
  }

  predicate IsPlain(s: string) {
    s != "" && forall i :: 0 <= i < |s| ==> IsPlainChar(s[i])
  }

  function ValidateRoot(root: string): Result<(), SiteError> {
    if !IsPlain(root) then Err(Unsupported("root"))
    else if root[0] != '/' then Err(RelativeRoot)
    else Ok(())
  }

  function ValidateProxy(proxy: string): Result<(), SiteError> {
    if !IsPlain(proxy) then Err(Unsupported("proxy pass"))
    else if StartsWith(proxy, "http://") || StartsWith(proxy, "https://") then Ok(())
    else Err(BadScheme)
  }

  function PrepareSpec(spec: SiteSpec): Result<(), SiteError> {
    if !IsLabel(spec.serverName) then Err(BadName)
    else if spec.listen == 0 then Err(BadPort)
    else if spec.root.None? && spec.proxyPass.None? then Err(NoTarget)
    else if spec.root.Some? && ValidateRoot(spec.root.value).Err? then ValidateRoot(spec.root.value)
    else if spec.proxyPass.Some? && ValidateProxy(spec.proxyPass.value).Err? then ValidateProxy(spec.proxyPass.value)
    else if !IsPlain(spec.index) then Err(Unsupported("index"))
    else Ok(())
  }

  /// Rendering

  const INDENT := "    "
  const INDENT2 := "        "

  /** A directive and its value on a line. */
  function Setting(indent: string, name: string, value: string): string {
    indent + (name + " " + value)
  }

  function Stem(name: string): string {
    if name == "" then "" else [if name[0] == '.' then '-' else name[0]] + Stem(name[1..])
  }

  function CertPaths(spec: SiteSpec): Option<(string, string)> {
    match spec.ssl
    case LetsEncrypt =>
      Some(("/etc/letsencrypt/live/" + (spec.serverName + "/fullchain.pem"), "/etc/letsencrypt/live/" + (spec.serverName + "/privkey.pem")))
    case Custom =>
      Some(("/etc/ssl/rustpanel/" + (Stem(spec.serverName) + ".crt"), "/etc/ssl/rustpanel/" + (Stem(spec.serverName) + ".key")))
    case NoTls => None
  }

  function CaddyAddress(spec: SiteSpec): string {
    if spec.ssl == NoTls then
      if spec.listen == 80 then "http://" + spec.serverName else "http://" + spec.serverName + ":" + Decimal(spec.listen)
    else if spec.listen == 80 || spec.listen == 443 then spec.serverName
    else spec.serverName + ":" + Decimal(spec.listen)
  }

  /** `push_extra`: the trimmed text on lines of its own, or nothing. */
  function Extra(extra: Option<string>): string {
    if extra.None? || Trim(extra.value) == "" then "" else Trim(extra.value) + "\n"
  }

  function CertLines(spec: SiteSpec): seq<string> {
    match CertPaths(spec)
    case None => []
    case Some(paths) =>
      [INDENT + "SSLEngine on", Setting(INDENT, "SSLCertificateFile", paths.0), Setting(INDENT, "SSLCertificateKeyFile", paths.1)]
  }

  function ApacheBody(spec: SiteSpec): seq<string> {
    if spec.proxyPass.Some? then
      [INDENT + "ProxyPreserveHost On", Setting(INDENT, "ProxyPass", "/ " + spec.proxyPass.value),
       Setting(INDENT, "ProxyPassReverse", "/ " + spec.proxyPass.value)]
    else if spec.root.Some? then
      [Setting(INDENT, "DocumentRoot", spec.root.value), INDENT + ("<Directory \"" + (spec.root.value + "\">")),
       INDENT2 + "Options FollowSymLinks", INDENT2 + "AllowOverride All", INDENT2 + "Require all granted",
       Setting(INDENT2, "DirectoryIndex", spec.index), INDENT + "</Directory>"]
    else []
  }

  function ApacheLines(spec: SiteSpec): seq<string> {
    ["<VirtualHost *" + (":" + Decimal(spec.listen) + ">"), Setting(INDENT, "ServerName", spec.serverName)] + CertLines(spec) + ApacheBody(spec)
  }

  function ApacheText(spec: SiteSpec): string {
    Unlines(ApacheLines(spec)) + Extra(spec.extra) + "</VirtualHost>" + "\n"
  }

  function CaddyTls(spec: SiteSpec): seq<string> {
    if spec.ssl == Custom then [Setting(INDENT, "tls", CertPaths(spec).value.0 + " " + CertPaths(spec).value.1)] else []
  }

  function CaddyBody(spec: SiteSpec): seq<string> {
    if spec.proxyPass.Some? then [Setting(INDENT, "reverse_proxy", spec.proxyPass.value)]
    else if spec.root.Some? then
      [Setting(INDENT, "root *", spec.root.value), INDENT + "encode gzip", INDENT + "file_server {",
       Setting(INDENT2, "index", spec.index), INDENT + "}"]
    else []
  }

  function CaddyLines(spec: SiteSpec): seq<string> {
    [CaddyAddress(spec) + " {"] + CaddyTls(spec) + CaddyBody(spec)
  }

  function CaddyText(spec: SiteSpec): string {
    Unlines(CaddyLines(spec)) + Extra(spec.extra) + "}" + "\n"
  }

  lemma {:induction false} UnlinesPush(lines: seq<string>, line: string)
    ensures Unlines(lines + [line]) == Unlines(lines) + line + "\n"
  {
    UnlinesJoin(lines, [line]);
    assert Unlines([line]) == line + "\n" + "";
    assert Unlines(lines) + (line + "\n") == Unlines(lines) + line + "\n";
  }

  /** `push_str` of a formatted line; `lines` is what the text consists of so far. */
  method Push(config: string, ghost lines: seq<string>, line: string) returns (r: string, ghost after: seq<string>)
    requires config == Unlines(lines)
    ensures after == lines + [line] && r == Unlines(after)
  {
    UnlinesPush(lines, line);
    r, after := config + line + "\n", lines + [line];
  }

  method PushExtra(config: string, extra: Option<string>) returns (r: string)
    ensures r == config + Extra(extra)
  {
    r := config;
    if extra.Some? {
      var trimmed := Trim(extra.value);
      if trimmed != "" {
        r := r + trimmed;
        ghost var tail := TrimEndCuts(TrimStart(extra.value));
        if trimmed[|trimmed| - 1] != '\n' {
          r := r + "\n";
        }
      }
    }
  }

  method PushCerts(config: string, ghost lines: seq<string>, spec: SiteSpec) returns (r: string, ghost after: seq<string>)
    requires config == Unlines(lines)
    ensures after == lines + CertLines(spec) && r == Unlines(after)
  {
    r, after := config, lines;
    var paths := CertPaths(spec);
    if paths.Some? {
      r, after := Push(r, after, INDENT + "SSLEngine on");
      r, after := Push(r, after, Setting(INDENT, "SSLCertificateFile", paths.value.0));
      r, after := Push(r, after, Setting(INDENT, "SSLCertificateKeyFile", paths.value.1));
    }
  }

  method PushRoot(config: string, ghost lines: seq<string>, spec: SiteSpec) returns (r: string, ghost after: seq<string>)
    requires config == Unlines(lines) && spec.root.Some? && spec.proxyPass.None?
    ensures after == lines + ApacheBody(spec) && r == Unlines(after)
  {
    var root := spec.root.value;
    r, after := Push(config, lines, Setting(INDENT, "DocumentRoot", root));
    r, after := Push(r, after, INDENT + ("<Directory \"" + (root + "\">")));
    r, after := Push(r, after, INDENT2 + "Options FollowSymLinks");
    r, after := Push(r, after, INDENT2 + "AllowOverride All");
    r, after := Push(r, after, INDENT2 + "Require all granted");
    r, after := Push(r, after, Setting(INDENT2, "DirectoryIndex", spec.index));
    r, after := Push(r, after, INDENT + "</Directory>");
  }

  method RenderApache(spec: SiteSpec) returns (r: Result<string, SiteError>)
    ensures r == match PrepareSpec(spec) { case Err(e) => Err(e) case Ok(_) => Ok(ApacheText(spec)) }
  {
    var prepared := PrepareSpec(spec);
    if prepared.Err? {
      return Err(prepared.error);
    }
    var config := "";
    ghost var lines := [];
    config, lines := Push(config, lines, "<VirtualHost *" + (":" + Decimal(spec.listen) + ">"));
    config, lines := Push(config, lines, Setting(INDENT, "ServerName", spec.serverName));
    config, lines := PushCerts(config, lines, spec);
    if spec.proxyPass.Some? {
      var proxy := spec.proxyPass.value;
      config, lines := Push(config, lines, INDENT + "ProxyPreserveHost On");
      config, lines := Push(config, lines, Setting(INDENT, "ProxyPass", "/ " + proxy));
      config, lines := Push(config, lines, Setting(INDENT, "ProxyPassReverse", "/ " + proxy));
    } else if spec.root.Some? {
      config, lines := PushRoot(config, lines, spec);
    }
    assert lines == ApacheLines(spec);
    config := PushExtra(config, spec.extra);
    config := config + "</VirtualHost>" + "\n";
    r := Ok(config);
  }

  method PushCaddyRoot(config: string, ghost lines: seq<string>, spec: SiteSpec) returns (r: string, ghost after: seq<string>)
    requires config == Unlines(lines) && spec.root.Some? && spec.proxyPass.None?
    ensures after == lines + CaddyBody(spec) && r == Unlines(after)
  {
    r, after := Push(config, lines, Setting(INDENT, "root *", spec.root.value));
    r, after := Push(r, after, INDENT + "encode gzip");
    r, after := Push(r, after, INDENT + "file_server {");
    r, after := Push(r, after, Setting(INDENT2, "index", spec.index));
    r, after := Push(r, after, INDENT + "}");
  }

  method RenderCaddy(spec: SiteSpec) returns (r: Result<string, SiteError>)
    ensures r == match PrepareSpec(spec) { case Err(e) => Err(e) case Ok(_) => Ok(CaddyText(spec)) }
  {
    var prepared := PrepareSpec(spec);
    if prepared.Err? {
      return Err(prepared.error);
    }
    var config := "";
    ghost var lines := [];
    config, lines := Push(config, lines, CaddyAddress(spec) + " {");
    if spec.ssl == Custom {
      var paths := CertPaths(spec);
      if paths.Some? {
        config, lines := Push(config, lines, Setting(INDENT, "tls", paths.value.0 + " " + paths.value.1));
      }
    }
    if spec.proxyPass.Some? {
      config, lines := Push(config, lines, Setting(INDENT, "reverse_proxy", spec.proxyPass.value));
    } else if spec.root.Some? {
      config, lines := PushCaddyRoot(config, lines, spec);
    }
    assert lines == CaddyLines(spec);
    config := PushExtra(config, spec.extra);
    config := config + "}" + "\n";
    r := Ok(config);
  }

  /// Parsing

  /** The state of a parser after some lines. */
  function Fold(step: (ParsedSite, string) -> ParsedSite, p: ParsedSite, lines: seq<string>): ParsedSite {
    if lines == [] then p else step(Fold(step, p, lines[..|lines| - 1]), lines[|lines| - 1])
  }

  function FirstToken(value: string): Option<string> {
    var words := Words(Trim(value));
    if words == [] || TrimChar(words[0], '"') == "" then None else Some(TrimChar(words[0], '"'))
  }

  function Directive(t: string, name: string): Option<string> {
    match StripPrefix(t, name)
    case None => None
    case Some(value) => FirstToken(value)
  }

  function WithServerName(p: ParsedSite, t: string): ParsedSite {
    if p.serverName.None? && StartsWith(t, "ServerName") then p.(serverName := Directive(t, "ServerName")) else p
  }

  function Unquoted(o: Option<string>): Option<string> {
    if o.Some? then Some(TrimChar(o.value, '"')) else None
  }

  function WithDocumentRoot(p: ParsedSite, t: string): ParsedSite {
    if p.root.None? && StartsWith(t, "DocumentRoot") then p.(root := Unquoted(Directive(t, "DocumentRoot"))) else p
  }

  function WithProxyPass(p: ParsedSite, t: string): ParsedSite {
    if p.proxyPass.None? && StartsWith(t, "ProxyPass ")
    then p.(proxyPass := if |Words(t)| > 2 then Some(Words(t)[2]) else None)
    else p
  }

  /** The digits after the first colon, if any. */
  function PortOf(value: string): Option<string> {
    var i := IndexOf(value, ':');
    if i == |value| then None
    else
      var port := Digits(value[i + 1..]);
      if port == "" then None else Some(port)
  }

  function WithListen(p: ParsedSite, t: string): ParsedSite {
    if p.listen.None? && StartsWith(t, "<VirtualHost") then p.(listen := PortOf(t[|"<VirtualHost"|..])) else p
  }

  predicate LooksTls(t: string) {
    Contains(t, "SSLEngine on") || Contains(t, ":443")
  }

  function WithTls(p: ParsedSite, t: string): ParsedSite {
    p.(ssl := p.ssl || LooksTls(t))
  }

  /** One line of an Apache site file. */
  function ApacheLine(p: ParsedSite, line: string): ParsedSite {
    var t := Trim(line);
    if StartsWith(t, "#") then p
    else WithTls(WithListen(WithProxyPass(WithDocumentRoot(WithServerName(p, t), t), t), t), t)
  }

  method ReadApacheLine(p: ParsedSite, line: string) returns (parsed: ParsedSite)
    ensures parsed == ApacheLine(p, line)
  {
    parsed := p;
    var trimmed := Trim(line);
    if StartsWith(trimmed, "#") {
      return;
    }
    if parsed.serverName.None? {
      if StartsWith(trimmed, "ServerName") {
        parsed := parsed.(serverName := FirstToken(trimmed[|"ServerName"|..]));
      }
    }
    assert parsed == WithServerName(p, trimmed);
    ghost var named := parsed;
    if parsed.root.None? {
      if StartsWith(trimmed, "DocumentRoot") {
        parsed := parsed.(root := Unquoted(FirstToken(trimmed[|"DocumentRoot"|..])));
      }
    }
    assert parsed == WithDocumentRoot(named, trimmed);
    ghost var rooted := parsed;
    if parsed.proxyPass.None? && StartsWith(trimmed, "ProxyPass ") {
      var parts := Words(trimmed);
      parsed := parsed.(proxyPass := if |parts| > 2 then Some(parts[2]) else None);
    }
    assert parsed == WithProxyPass(rooted, trimmed);
    if parsed.listen.None? {
      if StartsWith(trimmed, "<VirtualHost") {
        parsed := parsed.(listen := PortOf(trimmed[|"<VirtualHost"|..]));
      }
    }
    if Contains(trimmed, "SSLEngine on") || Contains(trimmed, ":443") {
      parsed := parsed.(ssl := true);
    }
  }

  method ParseApache(content: string) returns (parsed: ParsedSite)
    ensures parsed == Fold(ApacheLine, EMPTY, Lines(content))
  {
    parsed := EMPTY;
    var lines := Lines(content);
    for i := 0 to |lines|
      invariant parsed == Fold(ApacheLine, EMPTY, lines[..i])
    {
      assert lines[..i + 1][..i] == lines[..i];
      parsed := ReadApacheLine(parsed, lines[i]);
    }
    assert lines[..|lines|] == lines;
  }

  /** The site address line of a Caddy file. */
  function CaddySite(p: ParsedSite, t: string): ParsedSite {
    var address := Trim(TrimEndChar(t, '{'));
    var ssl := !StartsWith(address, "http://");
    var bare := TrimStartMatches(TrimStartMatches(address, "https://"), "http://");
    var split := RSplitOnce(bare, ':');
    if split.Some? && AllDigits(split.value.1)
    then p.(ssl := ssl, serverName := Some(split.value.0), listen := Some(split.value.1))
    else p.(ssl := ssl, serverName := Some(bare), listen := Some(if ssl then "443" else "80"))
  }

  function WithCaddyRoot(p: ParsedSite, t: string): ParsedSite {
    if p.root.None? && StartsWith(t, "root *") then p.(root := Directive(t, "root *")) else p
  }

  function WithCaddyProxy(p: ParsedSite, t: string): ParsedSite {
    if p.proxyPass.None? && StartsWith(t, "reverse_proxy") then p.(proxyPass := Directive(t, "reverse_proxy")) else p
  }

  function WithCaddyTls(p: ParsedSite, t: string): ParsedSite {
    if StartsWith(t, "tls ") then p.(ssl := true) else p
  }

  /** One line of a Caddy site file. */
  function CaddyLine(p: ParsedSite, line: string): ParsedSite {
    var t := Trim(line);
    if t == "" || StartsWith(t, "#") then p
    else if p.serverName.None? && t[|t| - 1] == '{' then CaddySite(p, t)
    else WithCaddyTls(WithCaddyProxy(WithCaddyRoot(p, t), t), t)
  }

  method ReadCaddyLine(p: ParsedSite, line: string) returns (parsed: ParsedSite)
    ensures parsed == CaddyLine(p, line)
  {
    parsed := p;
    var trimmed := Trim(line);
    if trimmed == "" || StartsWith(trimmed, "#") {
      return;
    }
    if parsed.serverName.None? && trimmed[|trimmed| - 1] == '{' {
      parsed := CaddySite(parsed, trimmed);
      return;
    }
    if parsed.root.None? {
      if StartsWith(trimmed, "root *") {
        parsed := parsed.(root := FirstToken(trimmed[|"root *"|..]));
      }
    }
    if parsed.proxyPass.None? {
      if StartsWith(trimmed, "reverse_proxy") {
        parsed := parsed.(proxyPass := FirstToken(trimmed[|"reverse_proxy"|..]));
      }
    }
    if StartsWith(trimmed, "tls ") {
      parsed := parsed.(ssl := true);
    }
  }

  method ParseCaddy(content: string) returns (parsed: ParsedSite)
    ensures parsed == Fold(CaddyLine, EMPTY, Lines(content))
  {
    parsed := EMPTY;
    var lines := Lines(content);
    for i := 0 to |lines|
      invariant parsed == Fold(CaddyLine, EMPTY, lines[..i])
    {
      assert lines[..i + 1][..i] == lines[..i];
      parsed := ReadCaddyLine(parsed, lines[i]);
    }
    assert lines[..|lines|] == lines;
  }
}
