/**
 * Enrollment tokens: the unauthenticated redemption gate, the agent
 * configuration it serves, the broker address given to agents, the install
 * one-liners and the token-creation form
 * (internal/controllers/webserver/handlers/enrollment.go).
 *
 * Instants are integers (nanoseconds since the Unix epoch); `now` stands for
 * time.Now() and is an input.
 */
module Enrollment {
  import opened Wrappers
  import opened Text
  import opened Forms
  import Strconv
  import Urls
  import Dates
  import Base64

  /** An enrollment token record as the store returns it. */
  datatype EnrollmentToken = EnrollmentToken(
    id: int,
    tenantID: int,
    siteID: Option<int>,
    token: string,
    description: string,
    active: bool,
    maxUses: int,
    currentUses: int,
    expiresAt: Option<int>)

  // ---------------------------------------------------------------------------
  // Redemption gate (PublicDownloadConfig)
  // ---------------------------------------------------------------------------

  /** Why a redemption request is refused, one per early return of the handler. */
  datatype Denial = MissingToken | UnknownToken | Inactive | Expired | UsageLimitReached | CertificateUnreadable

  /** The HTTP status of each refusal. */
  function Status(d: Denial): int {
    match d
    case MissingToken => 400
    case UnknownToken => 404
    case Inactive => 403
    case Expired => 403
    case UsageLimitReached => 403
    case CertificateUnreadable => 500
  }

  /** The plain-text body of each refusal. */
  function Message(d: Denial): string {
    match d
    case MissingToken => "missing token"
    case UnknownToken => "invalid token"
    case Inactive => "token is inactive"
    case Expired => "token has expired"
    case UsageLimitReached => "token usage limit reached"
    case CertificateUnreadable => "could not read CA certificate"
  }

  /** ExpiresAt.Before(now): only a present expiry strictly before now counts. */
  predicate IsExpired(t: EnrollmentToken, now: int) {
    t.expiresAt.Some? && t.expiresAt.value < now
  }

  /** MaxUses > 0 && CurrentUses >= MaxUses; a limit of 0 (or below) never triggers. */
  predicate IsExhausted(t: EnrollmentToken) {
    t.maxUses > 0 && t.currentUses >= t.maxUses
  }

  /** When a token may be redeemed, stated on its own: active, not past its expiry, within its use limit. */
  predicate IsRedeemable(t: EnrollmentToken, now: int) {
    && t.active
    && (t.expiresAt == None || now <= t.expiresAt.value)
    && (t.maxUses <= 0 || t.currentUses < t.maxUses)
  }

  /**
   * The checks of the public download path in their order: empty value, lookup
   * (the store's lookup by value is the table `tokens`), inactive, expired,
   * usage limit. The first failing check is the answer.
   */
  function CheckRedemption(tokens: map<string, EnrollmentToken>, value: string, now: int): (r: Result<EnrollmentToken, Denial>)
    ensures r.Ok? <==> value != "" && value in tokens && IsRedeemable(tokens[value], now)
    ensures r.Ok? ==> r.value == tokens[value]
    ensures r == Err(MissingToken) <==> value == ""
    ensures r == Err(UnknownToken) <==> value != "" && value !in tokens
    ensures r == Err(Inactive) <==> value != "" && value in tokens && !tokens[value].active
    ensures r == Err(Expired) <==>
      value != "" && value in tokens && tokens[value].active && IsExpired(tokens[value], now)
    ensures r == Err(UsageLimitReached) <==>
      value != "" && value in tokens && tokens[value].active && !IsExpired(tokens[value], now) && IsExhausted(tokens[value])
    ensures r.Err? ==> r.error != CertificateUnreadable
  {
    if value == "" then Err(MissingToken)
    else if value !in tokens then Err(UnknownToken)
    else
      var t := tokens[value];
      if !t.active then Err(Inactive)
      else if IsExpired(t, now) then Err(Expired)
      else if IsExhausted(t) then Err(UsageLimitReached)
      else Ok(t)
  }

  /** A check that passes later passed at every earlier instant too; expiry, once reached, stays. */
  lemma RedemptionMonotoneInTime(tokens: map<string, EnrollmentToken>, value: string, t1: int, t2: int)
    requires t1 <= t2
    ensures CheckRedemption(tokens, value, t2).Ok? ==> CheckRedemption(tokens, value, t1).Ok?
    ensures CheckRedemption(tokens, value, t1) == Err(Expired) ==> CheckRedemption(tokens, value, t2) == Err(Expired)
  {
  }

  /** A token without a use limit is never refused for its use count. */
  lemma UnlimitedNeverExhausted(tokens: map<string, EnrollmentToken>, value: string, now: int)
    requires value in tokens && tokens[value].maxUses == 0
    ensures CheckRedemption(tokens, value, now) != Err(UsageLimitReached)
  {
  }

  /** The archive served to an agent: the configuration document and the CA certificate. */
  datatype ConfigBundle = ConfigBundle(ini: string, caCert: seq<Base64.byte>)

  const IniEntryName: string := "openuem.ini"
  const CertEntryName: string := "certificates/ca.cer"

  datatype Redemption = Refused(denial: Denial) | Served(bundle: ConfigBundle)

  /** The platform query parameter of the redemption endpoint: linux, macos or windows, linux otherwise. */
  function RedemptionPlatform(p: string): (r: string)
    ensures r == "linux" || r == "macos" || r == "windows"
    ensures p == "linux" || p == "macos" || p == "windows" ==> r == p
    ensures !(p == "linux" || p == "macos" || p == "windows") ==> r == "linux"
  {
    if p == "linux" || p == "macos" || p == "windows" then p else "linux"
  }

  /**
   * PublicDownloadConfig. `caCert` is the result of reading the CA certificate
   * file (None when the read fails); `natsServers` and `domain` are the console's
   * configuration. The function receives the token table and returns no table:
   * redemption does not change any token, CurrentUses included.
   */
  function PublicDownloadConfig(
    tokens: map<string, EnrollmentToken>, value: string, platformParam: string, now: int,
    caCert: Option<seq<Base64.byte>>, natsServers: string, domain: string): (r: Redemption)
    ensures r.Served? <==> CheckRedemption(tokens, value, now).Ok? && caCert.Some?
    ensures r.Served? ==> r.bundle == ConfigBundle(
      GeneratePlatformConfigINI(RedemptionPlatform(platformParam), DeriveExternalNatsUrl(natsServers, domain), tokens[value].token),
      caCert.value)
    ensures r.Refused? && CheckRedemption(tokens, value, now).Err? ==> r.denial == CheckRedemption(tokens, value, now).error
    ensures CheckRedemption(tokens, value, now).Ok? && caCert.None? ==> r == Refused(CertificateUnreadable)
  {
    match CheckRedemption(tokens, value, now)
    case Err(d) => Refused(d)
    case Ok(t) =>
      var platform := RedemptionPlatform(platformParam);
      if caCert.None? then Refused(CertificateUnreadable)
      else
        var nats := DeriveExternalNatsUrl(natsServers, domain);
        Served(ConfigBundle(GeneratePlatformConfigINI(platform, nats, t.token), caCert.value))
  }

  // ---------------------------------------------------------------------------
  // Agent configuration document (generatePlatformConfigINI, generateConfigINI)
  // ---------------------------------------------------------------------------

  const WindowsCertificateDir: string := "C:\\Program Files\\" + "EigerCode\\AltiviewAgent\\" + "certificates\\"
  const RelativeCertificateDir: string := "certificates/"

  /**
   * generatePlatformConfigINI. The builder appends its pieces in order; read as
   * text they are the twenty lines of ConfigLines, each ended by '\n' (the
   * pieces "\n[NATS]\n" and "\n[Certificates]\n" each give an empty line and
   * a section header). Only the certificate directory depends on the platform.
   */
  function GeneratePlatformConfigINI(platform: string, natsServers: string, token: string): string {
    JoinLines(ConfigLines(natsServers, token, CertificateDir(platform)))
  }

  /** generateConfigINI, the legacy variant with relative certificate paths only. */
  function GenerateConfigINI(natsServers: string, token: string): string {
    JoinLines(ConfigLines(natsServers, token, RelativeCertificateDir))
  }

  /** The four certificate lines of the [Certificates] section, for a directory prefix. */
  function CertificateLines(dir: string): seq<string> {
    ["CACert=" + dir + "ca.cer", "AgentCert=" + dir + "agent.cer",
     "AgentKey=" + dir + "agent.key", "SFTPCert=" + dir + "sftp.cer"]
  }

  /** The sixteen lines every variant of the document starts with: agent settings, token and broker. */
  function CommonLines(natsServers: string, token: string): seq<string> {
    ["[Agent]", "UUID=", "Enabled=true", "ExecuteTaskEveryXMinutes=5", "Debug=false",
     "DefaultFrequency=5", "SFTPPort=2022", "VNCProxyPort=5900", "SFTPDisabled=false",
     "RemoteAssistanceDisabled=false", "EnrollmentToken=" + token,
     "", "[NATS]", "NATSServers=" + natsServers,
     "", "[Certificates]"]
  }

  /** The configuration document line by line: the common lines, then the certificates. */
  function ConfigLines(natsServers: string, token: string, certDir: string): seq<string> {
    CommonLines(natsServers, token) + CertificateLines(certDir)
  }

  /** The certificate directory each platform's document uses. */
  function CertificateDir(platform: string): string {
    if platform == "windows" then WindowsCertificateDir else RelativeCertificateDir
  }

  /** For every platform other than windows the two generators agree byte for byte. */
  lemma NonWindowsMatchesLegacy(platform: string, natsServers: string, token: string)
    requires platform != "windows"
    ensures GeneratePlatformConfigINI(platform, natsServers, token) == GenerateConfigINI(natsServers, token)
  {
  }

  /** The legacy certificate lines name files under the relative directory certificates/. */
  lemma RelativeCertificateLines()
    ensures CertificateLines(RelativeCertificateDir) ==
      ["CACert=certificates/ca.cer", "AgentCert=certificates/agent.cer",
       "AgentKey=certificates/agent.key", "SFTPCert=certificates/sftp.cer"]
  {
    RelativeCaAndAgentLines();
    RelativeKeyAndSftpLines();
  }

  lemma RelativeCaAndAgentLines()
    ensures "CACert=" + RelativeCertificateDir + "ca.cer" == "CACert=certificates/ca.cer"
    ensures "AgentCert=" + RelativeCertificateDir + "agent.cer" == "AgentCert=certificates/agent.cer"
  {
  }

  lemma RelativeKeyAndSftpLines()
    ensures "AgentKey=" + RelativeCertificateDir + "agent.key" == "AgentKey=certificates/agent.key"
    ensures "SFTPCert=" + RelativeCertificateDir + "sftp.cer" == "SFTPCert=certificates/sftp.cer"
  {
  }

  /**
   * The windows document has the same twenty lines as the legacy one except the
   * four certificate lines 16-19, which name files under the program directory.
   */
  lemma WindowsDiffersOnlyInCertificates(natsServers: string, token: string)
    ensures var w := ConfigLines(natsServers, token, WindowsCertificateDir);
            var l := ConfigLines(natsServers, token, RelativeCertificateDir);
            |w| == |l| == 20 &&
            (forall i :: 0 <= i < 16 ==> w[i] == l[i]) &&
            w[16..] == CertificateLines(WindowsCertificateDir) &&
            l[16..] == ["CACert=certificates/ca.cer", "AgentCert=certificates/agent.cer",
                        "AgentKey=certificates/agent.key", "SFTPCert=certificates/sftp.cer"]
  {
    var c := CommonLines(natsServers, token);
    assert |c| == 16;
    RelativeCertificateLines();
    assert (c + CertificateLines(WindowsCertificateDir))[16..] == CertificateLines(WindowsCertificateDir);
    assert (c + CertificateLines(RelativeCertificateDir))[16..] == CertificateLines(RelativeCertificateDir);
  }

  /** No line of the document holds a newline when the token, the broker and the directory hold none. */
  lemma ConfigLinesHaveNoNewline(natsServers: string, token: string, dir: string)
    requires NoNewline(natsServers) && NoNewline(token) && NoNewline(dir)
    ensures forall i :: 0 <= i < |ConfigLines(natsServers, token, dir)| ==> NoNewline(ConfigLines(natsServers, token, dir)[i])
  {
    CommonLinesHaveNoNewline(natsServers, token);
    CertificateLinesHaveNoNewline(dir);
    var ls := ConfigLines(natsServers, token, dir);
    forall i | 0 <= i < |ls| ensures NoNewline(ls[i]) {
      assert ls[i] in ls;
    }
  }

  lemma CommonLinesHaveNoNewline(natsServers: string, token: string)
    requires NoNewline(natsServers) && NoNewline(token)
    ensures forall line :: line in CommonLines(natsServers, token) ==> NoNewline(line)
  {
    SettingsHaveNoNewline();
    HeadersHaveNoNewline();
    NoNewlineConcat("EnrollmentToken=", token);
    NoNewlineConcat("NATSServers=", natsServers);
  }

  lemma SettingsHaveNoNewline()
    ensures NoNewline("[Agent]") && NoNewline("UUID=") && NoNewline("Enabled=true")
    ensures NoNewline("ExecuteTaskEveryXMinutes=5") && NoNewline("Debug=false")
    ensures NoNewline("DefaultFrequency=5") && NoNewline("SFTPPort=2022") && NoNewline("VNCProxyPort=5900")
  {
    FirstSettingsHaveNoNewline();
    LastSettingsHaveNoNewline();
  }

  lemma FirstSettingsHaveNoNewline()
    ensures NoNewline("[Agent]") && NoNewline("UUID=") && NoNewline("Enabled=true")
    ensures NoNewline("ExecuteTaskEveryXMinutes=5")
  {
  }

  lemma LastSettingsHaveNoNewline()
    ensures NoNewline("Debug=false") && NoNewline("DefaultFrequency=5")
    ensures NoNewline("SFTPPort=2022") && NoNewline("VNCProxyPort=5900")
  {
  }

  lemma HeadersHaveNoNewline()
    ensures NoNewline("SFTPDisabled=false") && NoNewline("RemoteAssistanceDisabled=false")
    ensures NoNewline("") && NoNewline("[NATS]") && NoNewline("[Certificates]")
    ensures NoNewline("EnrollmentToken=") && NoNewline("NATSServers=")
  {
    SwitchesHaveNoNewline();
    SectionsHaveNoNewline();
  }

  lemma SwitchesHaveNoNewline()
    ensures NoNewline("SFTPDisabled=false") && NoNewline("RemoteAssistanceDisabled=false")
  {
  }

  lemma SectionsHaveNoNewline()
    ensures NoNewline("") && NoNewline("[NATS]") && NoNewline("[Certificates]")
    ensures NoNewline("EnrollmentToken=") && NoNewline("NATSServers=")
  {
  }

  lemma CertificateLinesHaveNoNewline(dir: string)
    requires NoNewline(dir)
    ensures forall line :: line in CertificateLines(dir) ==> NoNewline(line)
  {
    CertificateNamesHaveNoNewline();
    NoNewlineConcat("CACert=", dir); NoNewlineConcat("CACert=" + dir, "ca.cer");
    NoNewlineConcat("AgentCert=", dir); NoNewlineConcat("AgentCert=" + dir, "agent.cer");
    NoNewlineConcat("AgentKey=", dir); NoNewlineConcat("AgentKey=" + dir, "agent.key");
    NoNewlineConcat("SFTPCert=", dir); NoNewlineConcat("SFTPCert=" + dir, "sftp.cer");
  }

  lemma CertificateNamesHaveNoNewline()
    ensures NoNewline("CACert=") && NoNewline("ca.cer") && NoNewline("AgentCert=") && NoNewline("agent.cer")
    ensures NoNewline("AgentKey=") && NoNewline("agent.key") && NoNewline("SFTPCert=") && NoNewline("sftp.cer")
  {
    CaAndAgentNamesHaveNoNewline();
    KeyAndSftpNamesHaveNoNewline();
  }

  lemma CaAndAgentNamesHaveNoNewline()
    ensures NoNewline("CACert=") && NoNewline("ca.cer") && NoNewline("AgentCert=") && NoNewline("agent.cer")
  {
  }

  lemma KeyAndSftpNamesHaveNoNewline()
    ensures NoNewline("AgentKey=") && NoNewline("agent.key") && NoNewline("SFTPCert=") && NoNewline("sftp.cer")
  {
  }

  lemma CertificateDirsHaveNoNewline()
    ensures NoNewline(WindowsCertificateDir) && NoNewline(RelativeCertificateDir)
  {
    assert '\n' !in "C:\\Program Files\\";
    assert '\n' !in "EigerCode\\AltiviewAgent\\";
    assert '\n' !in "certificates\\";
    NoNewlineConcat("C:\\Program Files\\", "EigerCode\\AltiviewAgent\\");
    NoNewlineConcat("C:\\Program Files\\" + "EigerCode\\AltiviewAgent\\", "certificates\\");
    assert forall i :: 0 <= i < |RelativeCertificateDir| ==> RelativeCertificateDir[i] != '\n';
  }

  /** Splitting the document at newlines gives back its lines. */
  lemma SplitConfig(natsServers: string, token: string, dir: string)
    requires NoNewline(natsServers) && NoNewline(token) && NoNewline(dir)
    ensures SplitLines(JoinLines(ConfigLines(natsServers, token, dir))) == ConfigLines(natsServers, token, dir)
  {
    ConfigLinesHaveNoNewline(natsServers, token, dir);
    SplitJoinLines(ConfigLines(natsServers, token, dir));
  }

  /**
   * Read back line by line, every variant of the document has the token line
   * and the broker line verbatim, provided neither value holds a newline.
   */
  lemma ConfigCarriesTokenAndBroker(platform: string, natsServers: string, token: string)
    requires NoNewline(natsServers) && NoNewline(token)
    ensures var lines := SplitLines(GeneratePlatformConfigINI(platform, natsServers, token));
            |lines| == 20 && lines[10] == "EnrollmentToken=" + token && lines[13] == "NATSServers=" + natsServers
    ensures var lines := SplitLines(GenerateConfigINI(natsServers, token));
            |lines| == 20 && lines[10] == "EnrollmentToken=" + token && lines[13] == "NATSServers=" + natsServers
  {
    CertificateDirsHaveNoNewline();
    SplitConfig(natsServers, token, CertificateDir(platform));
    SplitConfig(natsServers, token, RelativeCertificateDir);
    TokenAndBrokerLines(natsServers, token, CertificateDir(platform));
    TokenAndBrokerLines(natsServers, token, RelativeCertificateDir);
  }

  lemma TokenAndBrokerLines(natsServers: string, token: string, dir: string)
    ensures var ls := ConfigLines(natsServers, token, dir);
      |ls| == 20 && ls[10] == "EnrollmentToken=" + token && ls[13] == "NATSServers=" + natsServers
  {
    var c := CommonLines(natsServers, token);
    assert (c + CertificateLines(dir))[10] == c[10];
    assert (c + CertificateLines(dir))[13] == c[13];
  }

  lemma NoNewlineConcat(a: string, b: string)
    requires NoNewline(a) && NoNewline(b)
    ensures NoNewline(a + b)
  {
    assert forall i :: 0 <= i < |a + b| ==> (a + b)[i] == if i < |a| then a[i] else b[i - |a|];
  }

  // ---------------------------------------------------------------------------
  // Broker address (deriveExternalNATSURL)
  // ---------------------------------------------------------------------------

  const DefaultNatsPort: string := "4433"

  /**
   * deriveExternalNATSURL: the scheme and port of the internal broker URL with
   * the console's domain as host; the port defaults to 4433. An unparseable URL
   * or an empty domain leaves the internal URL as it is.
   */
  function DeriveExternalNatsUrl(internalNats: string, domain: string): (r: string)
    ensures domain == "" ==> r == internalNats
    ensures Urls.ParseUrl(internalNats).None? ==> r == internalNats
  {
    match Urls.ParseUrl(internalNats)
    case None => internalNats
    case Some(u) =>
      if domain == "" then internalNats
      else
        var port := if Urls.Port(u) == "" then DefaultNatsPort else Urls.Port(u);
        u.scheme + "://" + domain + ":" + port
  }

  /** An internal URL scheme://host:port becomes scheme://domain:port. */
  lemma DeriveKeepsPort(scheme: string, host: string, port: string, domain: string)
    requires Urls.IsScheme(scheme) && Urls.IsPlainHost(host)
    requires Strconv.AllDigits(port) && |port| > 0 && domain != ""
    ensures DeriveExternalNatsUrl(scheme + "://" + host + ":" + port, domain) == scheme + "://" + domain + ":" + port
  {
    Urls.ParseHostPort(scheme, host, port);
  }

  /** An internal URL scheme://host without a port becomes scheme://domain:4433. */
  lemma DeriveDefaultsPort(scheme: string, host: string, domain: string)
    requires Urls.IsScheme(scheme) && Urls.IsPlainHost(host) && domain != ""
    ensures DeriveExternalNatsUrl(scheme + "://" + host, domain) == scheme + "://" + domain + ":4433"
  {
    Urls.ParseHostOnly(scheme, host);
  }

  /**
   * An internal URL whose host holds a character url.Parse refuses unescaped
   * (tls://a b:4433, say) does not parse, so it is returned as it is.
   */
  lemma DeriveKeepsRejectedHost(scheme: string, host: string, port: string, j: nat, domain: string)
    requires Urls.IsScheme(scheme) && Strconv.AllDigits(port)
    requires forall i :: 0 <= i < |host| ==> Urls.StaysInHost(host[i])
    requires j < |host| && host[j] < '\U{80}' && !Urls.HostMayHold(host[j])
    ensures DeriveExternalNatsUrl(scheme + "://" + host + ":" + port, domain) == scheme + "://" + host + ":" + port
  {
    Urls.ParseRejectsHostChar(scheme, host, port, j);
  }

  /** The pieces of the example below: a valid scheme, a plain host, a numeric port, and the texts they make. */
  lemma CommentExampleParts()
    ensures Urls.IsScheme("tls") && Urls.IsPlainHost("nats") && Strconv.AllDigits("4433")
    ensures "tls" + "://" + "nats" + ":" + "4433" == "tls://nats:4433"
    ensures "tls" + "://" + "example.com" + ":" + "4433" == "tls://example.com:4433"
  {
    var s := "tls";
    assert Urls.IsSchemeTail(s[0]) && Urls.IsSchemeTail(s[1]) && Urls.IsSchemeTail(s[2]);
  }

  /** The example of the source's own comment at enrollment.go:374: tls://nats:4433 with example.com. */
  lemma DeriveExample(internalNats: string, domain: string)
    requires internalNats == "tls://nats:4433" && domain == "example.com"
    ensures DeriveExternalNatsUrl(internalNats, domain) == "tls://example.com:4433"
  {
    CommentExampleParts();
    DeriveKeepsPort("tls", "nats", "4433", domain);
  }


  // ---------------------------------------------------------------------------
  // Install one-liners (generateLinuxOneLiner, generateMacOSOneLiner, generateWindowsOneLiner)
  // ---------------------------------------------------------------------------

  const AgentReleaseBaseUrl: string := "https://github.com/EigerCode/openuem-agent/releases/latest/download"

  /** The address an agent fetches its configuration bundle from. */
  function ConfigUrl(consoleUrl: string, token: string, platform: string): string {
    consoleUrl + "/api/enroll/" + token + "/config?platform=" + platform
  }

  /** The last step of the Linux and of the macOS installer: remove both downloads. */
  const LinuxCleanup: string := "rm /tmp/c.zip /tmp/a.deb"
  const MacOSCleanup: string := "rm /tmp/c.zip /tmp/a.pkg"

  /** The five shell steps of the Linux installer: fetch the bundle, unpack it, fetch the package, install it, clean up. */
  function LinuxSteps(consoleUrl: string, token: string): seq<string> {
    ["curl -fsSL \"" + ConfigUrl(consoleUrl, token, "linux") + "\" -o /tmp/c.zip",
     "unzip -o /tmp/c.zip -d /etc/openuem-agent/",
     "curl -fsSL \"" + AgentReleaseBaseUrl + "/altiview-agent-linux-amd64.deb\" -o /tmp/a.deb",
     "dpkg -i /tmp/a.deb",
     LinuxCleanup]
  }

  /** The five shell steps of the macOS installer; `arch` picks the package. */
  function MacOSSteps(consoleUrl: string, token: string, arch: string): seq<string> {
    ["curl -fsSL \"" + ConfigUrl(consoleUrl, token, "macos") + "\" -o /tmp/c.zip",
     "unzip -o /tmp/c.zip -d /Library/OpenUEMAgent/etc/openuem-agent/",
     "curl -fsSL \"" + AgentReleaseBaseUrl + "/altiview-agent-darwin-" + arch + ".pkg\" -o /tmp/a.pkg",
     "installer -pkg /tmp/a.pkg -target /",
     MacOSCleanup]
  }

  /** The six PowerShell statements of the Windows installer. */
  function WindowsSteps(consoleUrl: string, token: string): seq<string> {
    ["$d=\"$env:ProgramFiles\\EigerCode\\AltiviewAgent\"",
     "Invoke-WebRequest '" + ConfigUrl(consoleUrl, token, "windows") + "' -OutFile \"$env:TEMP\\c.zip\"",
     "Expand-Archive \"$env:TEMP\\c.zip\" $d -Force",
     "Invoke-WebRequest '" + AgentReleaseBaseUrl + "/altiview-agent-windows-amd64.msi' -OutFile \"$env:TEMP\\a.msi\"",
     "Start-Process msiexec \"/i `\"$env:TEMP\\a.msi`\" /qn\" -Wait",
     "Remove-Item \"$env:TEMP\\c.zip\",\"$env:TEMP\\a.msi\""]
  }

  /** generateLinuxOneLiner: the five steps chained with && inside `sudo bash -c '…'`. */
  function LinuxOneLiner(consoleUrl: string, token: string): string {
    "sudo bash -c '" + Join(LinuxSteps(consoleUrl, token), " && ") + "'"
  }

  /** generateMacOSOneLiner: the five steps chained with && inside `sudo bash -c '…'`. */
  function MacOSOneLiner(consoleUrl: string, token: string, arch: string): string {
    "sudo bash -c '" + Join(MacOSSteps(consoleUrl, token, arch), " && ") + "'"
  }

  /** generateWindowsOneLiner: the six statements separated by "; ", so each runs whatever the previous did. */
  function WindowsOneLiner(consoleUrl: string, token: string): string {
    Join(WindowsSteps(consoleUrl, token), "; ")
  }

  /** A string inside the first of several joined pieces occurs in the joined text at the same place. */
  lemma OccursInJoinHead(parts: seq<string>, sep: string, t: string, k: int)
    requires |parts| > 1 && OccursAt(parts[0], t, k)
    ensures OccursAt(Join(parts, sep), t, k)
  {
    OccursExtend(parts[0], t, k, sep);
    OccursExtend(parts[0] + sep, t, k, Join(parts[1..], sep));
  }

  /** Each command fetches the configuration bundle of its own token from the console. */
  lemma OneLinersFetchTokenConfig(consoleUrl: string, token: string, arch: string)
    ensures Contains(LinuxOneLiner(consoleUrl, token), ConfigUrl(consoleUrl, token, "linux"))
    ensures Contains(MacOSOneLiner(consoleUrl, token, arch), ConfigUrl(consoleUrl, token, "macos"))
    ensures Contains(WindowsOneLiner(consoleUrl, token), ConfigUrl(consoleUrl, token, "windows"))
  {
    LinuxFetchesConfig(consoleUrl, token);
    MacOSFetchesConfig(consoleUrl, token, arch);
    WindowsFetchesConfig(consoleUrl, token);
  }

  /** The first step of a `sudo bash -c` chain starts right after the wrapper and the curl command. */
  lemma ChainFetches(steps: seq<string>, url: string, tail: string)
    requires |steps| > 1 && steps[0] == "curl -fsSL \"" + url + tail
    ensures Contains("sudo bash -c '" + Join(steps, " && ") + "'", url)
  {
    var fetch := "curl -fsSL \"";
    var wrap := "sudo bash -c '";
    OccursInMiddle(fetch, url, tail);
    OccursInJoinHead(steps, " && ", url, |fetch|);
    OccursShift(wrap, Join(steps, " && "), url, |fetch|);
    OccursExtend(wrap + Join(steps, " && "), url, |wrap| + |fetch|, "'");
  }

  lemma LinuxFetchesConfig(consoleUrl: string, token: string)
    ensures Contains(LinuxOneLiner(consoleUrl, token), ConfigUrl(consoleUrl, token, "linux"))
  {
    ChainFetches(LinuxSteps(consoleUrl, token), ConfigUrl(consoleUrl, token, "linux"), "\" -o /tmp/c.zip");
  }

  lemma MacOSFetchesConfig(consoleUrl: string, token: string, arch: string)
    ensures Contains(MacOSOneLiner(consoleUrl, token, arch), ConfigUrl(consoleUrl, token, "macos"))
  {
    ChainFetches(MacOSSteps(consoleUrl, token, arch), ConfigUrl(consoleUrl, token, "macos"), "\" -o /tmp/c.zip");
  }

  lemma WindowsFetchesConfig(consoleUrl: string, token: string)
    ensures Contains(WindowsOneLiner(consoleUrl, token), ConfigUrl(consoleUrl, token, "windows"))
  {
    var w := WindowsSteps(consoleUrl, token);
    var wu := ConfigUrl(consoleUrl, token, "windows");
    var invoke := "Invoke-WebRequest '";
    OccursInMiddle(invoke, wu, "' -OutFile \"$env:TEMP\\c.zip\"");
    OccursInJoinHead(w[1..], "; ", wu, |invoke|);
    OccursShift(w[0] + "; ", Join(w[1..], "; "), wu, |invoke|);
  }

  /**
   * How many steps of `a && b && …` run, when `ok[i]` tells whether step i
   * succeeds once it runs: the shell stops after the first failure.
   */
  function AndChainRuns(ok: seq<bool>): (n: nat)
    ensures n <= |ok|
    ensures ok != [] ==> n > 0
  {
    if ok == [] then 0 else if ok[0] then 1 + AndChainRuns(ok[1..]) else 1
  }

  /** The last step of an && chain (the clean-up) runs exactly when every earlier step succeeded. */
  lemma {:induction false} LastStepRunsIffEarlierSucceed(ok: seq<bool>)
    requires ok != []
    ensures AndChainRuns(ok) == |ok| <==> forall j :: 0 <= j < |ok| - 1 ==> ok[j]
  {
    if |ok| > 1 {
      LastStepRunsIffEarlierSucceed(ok[1..]);
      assert forall j :: 0 <= j < |ok| - 2 ==> ok[1..][j] == ok[j + 1];
      if ok[0] && AndChainRuns(ok) == |ok| {
        forall j | 0 <= j < |ok| - 1 ensures ok[j] {
          if j > 0 { assert ok[1..][j - 1] == ok[j]; }
        }
      }
    }
  }

  /** A joined text ends with the separator and the last piece. */
  lemma {:induction false} JoinEndsWithLast(parts: seq<string>, sep: string)
    requires |parts| >= 2
    ensures HasSuffix(Join(parts, sep), sep + parts[|parts| - 1])
  {
    var tail := sep + parts[|parts| - 1];
    if |parts| > 2 {
      JoinEndsWithLast(parts[1..], sep);
      var j := Join(parts[1..], sep);
      assert j[|j| - |tail|..] == tail;
      assert (parts[0] + sep + j)[|parts[0] + sep + j| - |tail|..] == j[|j| - |tail|..];
    } else {
      assert parts[1..] == [parts[1]];
      assert (parts[0] + sep + parts[1])[|parts[0]| ..] == tail;
    }
  }

  /** A `sudo bash -c` chain ends with its last step, after an &&. */
  lemma ChainEndsWith(steps: seq<string>)
    requires |steps| >= 2
    ensures HasSuffix("sudo bash -c '" + Join(steps, " && ") + "'", " && " + steps[|steps| - 1] + "'")
  {
    var j := Join(steps, " && ");
    var tail := " && " + steps[|steps| - 1];
    JoinEndsWithLast(steps, " && ");
    var c := "sudo bash -c '" + j + "'";
    assert c[|c| - |tail| - 1..] == j[|j| - |tail|..] + "'";
  }

  /**
   * The Linux command ends with the clean-up of both downloads, the last of
   * its && steps, which runs exactly when the four steps before it succeed.
   */
  lemma LinuxCleanupRunsLast(consoleUrl: string, token: string, ok: seq<bool>)
    requires |ok| == |LinuxSteps(consoleUrl, token)|
    ensures HasSuffix(LinuxOneLiner(consoleUrl, token), " && " + LinuxCleanup + "'")
    ensures AndChainRuns(ok) == |ok| <==> ok[0] && ok[1] && ok[2] && ok[3]
  {
    var steps := LinuxSteps(consoleUrl, token);
    assert |steps| == 5 && steps[4] == LinuxCleanup;
    ChainEndsWith(steps);
    LastStepRunsIffEarlierSucceed(ok);
  }

  /**
   * The macOS command ends with the clean-up of both downloads, the last of
   * its && steps, which runs exactly when the four steps before it succeed.
   */
  lemma MacOSCleanupRunsLast(consoleUrl: string, token: string, arch: string, ok: seq<bool>)
    requires |ok| == |MacOSSteps(consoleUrl, token, arch)|
    ensures HasSuffix(MacOSOneLiner(consoleUrl, token, arch), " && " + MacOSCleanup + "'")
    ensures AndChainRuns(ok) == |ok| <==> ok[0] && ok[1] && ok[2] && ok[3]
  {
    var steps := MacOSSteps(consoleUrl, token, arch);
    assert |steps| == 5 && steps[4] == MacOSCleanup;
    ChainEndsWith(steps);
    LastStepRunsIffEarlierSucceed(ok);
  }

  /** The platform query parameter of the install-command view: linux otherwise. */
  function InstallPlatform(p: string): (r: string)
    ensures r == "linux" || r == "macos-amd64" || r == "macos-arm64" || r == "windows"
    ensures p == "linux" || p == "macos-amd64" || p == "macos-arm64" || p == "windows" ==> r == p
    ensures !(p == "linux" || p == "macos-amd64" || p == "macos-arm64" || p == "windows") ==> r == "linux"
  {
    if p == "linux" || p == "macos-amd64" || p == "macos-arm64" || p == "windows" then p else "linux"
  }

  datatype InstallCommand = InstallCommand(command: string, title: string)

  datatype AdminError = InvalidTokenId | LookupFailed | CaCertificateUnreadable | InvalidTenantId

  /**
   * GetInstallCommand: the token id from the URL, the platform, the token by id
   * (the table `tokensById`), then the command for https://<request host>.
   */
  function GetInstallCommand(idParam: string, platformParam: string, tokensById: map<int, EnrollmentToken>, requestHost: string)
    : (r: Result<InstallCommand, AdminError>)
    ensures !Strconv.Atoi(idParam).Parsed? ==> r == Err(InvalidTokenId)
    ensures Strconv.Atoi(idParam).Parsed? && Strconv.Atoi(idParam).value !in tokensById ==> r == Err(LookupFailed)
    ensures r.Ok? <==> Strconv.Atoi(idParam).Parsed? && Strconv.Atoi(idParam).value in tokensById
    ensures r.Ok? && InstallPlatform(platformParam) == "linux" ==>
      r.value == InstallCommand(LinuxOneLiner("https://" + requestHost, tokensById[Strconv.Atoi(idParam).value].token), "Linux")
    ensures r.Ok? && InstallPlatform(platformParam) == "macos-amd64" ==>
      r.value == InstallCommand(MacOSOneLiner("https://" + requestHost, tokensById[Strconv.Atoi(idParam).value].token, "amd64"), "macOS Intel")
    ensures r.Ok? && InstallPlatform(platformParam) == "macos-arm64" ==>
      r.value == InstallCommand(MacOSOneLiner("https://" + requestHost, tokensById[Strconv.Atoi(idParam).value].token, "arm64"), "macOS ARM")
    ensures r.Ok? && InstallPlatform(platformParam) == "windows" ==>
      r.value == InstallCommand(WindowsOneLiner("https://" + requestHost, tokensById[Strconv.Atoi(idParam).value].token), "Windows")
  {
    match Strconv.Atoi(idParam)
    case SyntaxError => Err(InvalidTokenId)
    case RangeError(_) => Err(InvalidTokenId)
    case Parsed(id) =>
      var platform := InstallPlatform(platformParam);
      if id !in tokensById then Err(LookupFailed)
      else
        var token := tokensById[id].token;
        var consoleUrl := "https://" + requestHost;
        if platform == "linux" then Ok(InstallCommand(LinuxOneLiner(consoleUrl, token), "Linux"))
        else if platform == "macos-amd64" then Ok(InstallCommand(MacOSOneLiner(consoleUrl, token, "amd64"), "macOS Intel"))
        else if platform == "macos-arm64" then Ok(InstallCommand(MacOSOneLiner(consoleUrl, token, "arm64"), "macOS ARM"))
        else Ok(InstallCommand(WindowsOneLiner(consoleUrl, token), "Windows"))
  }

  /**
   * DownloadConfigZIP, the authenticated download: token by id, CA certificate,
   * then the legacy document. `caCert` is None when the certificate file cannot be read.
   */
  function DownloadConfigZip(idParam: string, tokensById: map<int, EnrollmentToken>,
                             caCert: Option<seq<Base64.byte>>, natsServers: string, domain: string)
    : (r: Result<ConfigBundle, AdminError>)
    ensures r.Ok? <==> Strconv.Atoi(idParam).Parsed? && Strconv.Atoi(idParam).value in tokensById && caCert.Some?
    ensures r.Ok? ==> r.value == ConfigBundle(
      GenerateConfigINI(DeriveExternalNatsUrl(natsServers, domain), tokensById[Strconv.Atoi(idParam).value].token),
      caCert.value)
  {
    match Strconv.Atoi(idParam)
    case SyntaxError => Err(InvalidTokenId)
    case RangeError(_) => Err(InvalidTokenId)
    case Parsed(id) =>
      if id !in tokensById then Err(LookupFailed)
      else if caCert.None? then Err(CaCertificateUnreadable)
      else Ok(ConfigBundle(GenerateConfigINI(DeriveExternalNatsUrl(natsServers, domain), tokensById[id].token), caCert.value))
  }

  // ---------------------------------------------------------------------------
  // Token-creation form (CreateEnrollmentToken)
  // ---------------------------------------------------------------------------

  /** max_uses: "" is 0; otherwise whatever Atoi returns, its error ignored (0 on a syntax error, the clamped bound on overflow). */
  function ParseMaxUses(v: string): (n: int)
    ensures v == "" ==> n == 0
    ensures Strconv.Atoi(v) == Strconv.SyntaxError ==> n == 0
    ensures Strconv.Atoi(v).Parsed? ==> n == Strconv.Atoi(v).value
    ensures Strconv.Atoi(v).RangeError? ==> n == Strconv.Atoi(v).clamped
    ensures Strconv.MinInt64 <= n <= Strconv.MaxInt64
  {
    if v == "" then 0 else Strconv.ReturnedValue(Strconv.Atoi(v))
  }

  /** site_id: kept only when it parses to an integer above 0. */
  function ParseSiteId(v: string): (r: Option<int>)
    ensures r.Some? <==> Strconv.Atoi(v).Parsed? && Strconv.Atoi(v).value > 0
    ensures r.Some? ==> r.value == Strconv.Atoi(v).value
  {
    if v == "" then None
    else
      match Strconv.Atoi(v)
      case Parsed(id) => if id > 0 then Some(id) else None
      case _ => None
  }

  /** expires_at: kept only when it parses as YYYY-MM-DD; the instant is midnight UTC of that day. */
  function ParseExpiresAt(v: string): (r: Option<int>)
    ensures r.Some? <==> Dates.ParseDate(v).Some?
    ensures r.Some? ==> r.value == Dates.StartOfDay(Dates.ParseDate(v).value)
  {
    if v == "" then None
    else
      match Dates.ParseDate(v)
      case Some(d) => Some(Dates.StartOfDay(d))
      case None => None
  }

  /** Numbers typed back as Itoa writes them survive the form: max_uses and a positive site_id. */
  lemma FormNumbersRoundTrip(n: int)
    requires Strconv.MinInt64 <= n <= Strconv.MaxInt64
    ensures ParseMaxUses(Strconv.Itoa(n)) == n
    ensures n > 0 ==> ParseSiteId(Strconv.Itoa(n)) == Some(n)
    ensures n <= 0 ==> ParseSiteId(Strconv.Itoa(n)) == None
  {
    Strconv.AtoiItoa(n);
  }

  /** A date written in the layout gives an expiry at the start of that day. */
  lemma FormDateRoundTrip(d: Dates.Date)
    requires Dates.IsValid(d)
    ensures ParseExpiresAt(Dates.FormatDate(d)) == Some(Dates.StartOfDay(d))
  {
    Dates.ParseFormatDate(d);
  }

  /** What the handler passes to the store to create a token. */
  datatype NewToken = NewToken(
    tenantID: int, siteID: Option<int>, description: string, token: string, maxUses: int, expiresAt: Option<int>)

  /**
   * CreateEnrollmentToken up to the store call: the tenant id of the session's
   * common info, then the form fields. `tokenValue` stands for uuid.New().
   */
  function CreateEnrollmentToken(commonTenantId: string, form: map<string, string>, tokenValue: string)
    : (r: Result<NewToken, AdminError>)
    ensures !Strconv.Atoi(commonTenantId).Parsed? <==> r == Err(InvalidTenantId)
    ensures r.Ok? <==> Strconv.Atoi(commonTenantId).Parsed?
    ensures r.Ok? ==> r.value == NewToken(
      Strconv.Atoi(commonTenantId).value, ParseSiteId(FormValue(form, "site_id")), FormValue(form, "description"),
      tokenValue, ParseMaxUses(FormValue(form, "max_uses")), ParseExpiresAt(FormValue(form, "expires_at")))
  {
    match Strconv.Atoi(commonTenantId)
    case Parsed(tenantID) =>
      Ok(NewToken(tenantID, ParseSiteId(FormValue(form, "site_id")), FormValue(form, "description"), tokenValue,
                  ParseMaxUses(FormValue(form, "max_uses")), ParseExpiresAt(FormValue(form, "expires_at"))))
    case _ => Err(InvalidTenantId)
  }

  /**
   * A token whose expiry came from the form date d is served on any instant up
   * to midnight UTC at the start of d and refused as expired afterwards
   * (other checks passing).
   */
  lemma ExpiryFromFormDate(tokens: map<string, EnrollmentToken>, value: string, d: Dates.Date, now: int)
    requires Dates.IsValid(d) && value != "" && value in tokens
    requires tokens[value].active && !IsExhausted(tokens[value])
    requires tokens[value].expiresAt == ParseExpiresAt(Dates.FormatDate(d))
    ensures CheckRedemption(tokens, value, now).Ok? <==> now <= Dates.StartOfDay(d)
    ensures CheckRedemption(tokens, value, now) == Err(Expired) <==> now > Dates.StartOfDay(d)
  {
    FormDateRoundTrip(d);
  }
}
