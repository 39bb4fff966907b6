/** The OpenVPN client configuration of an investigator: the template's
    file-reference directives replaced by inline blocks holding the
    certificate and key contents, the name of the written file, and the flag
    recording that the file exists. */
module VpnConfig {
  import opened Common
  import opened Text

  /** The four directives of the template that name external files. */
  const CaDirective: string := "ca ca.crt"
  const CertDirective: string := "cert client1.crt"
  const KeyDirective: string := "key client1.key"
  const TlsAuthDirective: string := "tls-auth ta.key 1"

  /** The contents of the four files the directives name. */
  datatype Secrets = Secrets(ca: string, clientCert: string, clientKey: string, taKey: string)

  /** The inline blocks that take the directives' places. */
  function CaBlock(ca: string): string {
    "<ca>\n" + ca + "</ca>"
  }

  function CertBlock(cert: string): string {
    "<cert>\n" + cert + "</cert>"
  }

  function KeyBlock(key: string): string {
    "<key>\n" + key + "</key>"
  }

  function TlsAuthBlock(ta: string): string {
    "<tls-auth>\n" + ta + "</tls-auth>\nkey-direction 1"
  }

  /** The configuration written for a template: the four replacements, in
      this order, each of every non-overlapping occurrence left to right and
      each applied to the result of the one before (so also to text an
      earlier block brought in). */
  function Embed(template: string, s: Secrets): string {
    var withCa := ReplaceAll(template, CaDirective, CaBlock(s.ca));
    var withCert := ReplaceAll(withCa, CertDirective, CertBlock(s.clientCert));
    var withKey := ReplaceAll(withCert, KeyDirective, KeyBlock(s.clientKey));
    ReplaceAll(withKey, TlsAuthDirective, TlsAuthBlock(s.taKey))
  }

  /** A template naming none of the four files comes out unchanged. */
  lemma EmbedWithoutDirectives(template: string, s: Secrets)
    requires !Contains(template, CaDirective) && !Contains(template, CertDirective)
    requires !Contains(template, KeyDirective) && !Contains(template, TlsAuthDirective)
    ensures Embed(template, s) == template
  {
    ReplaceAllAbsent(template, CaDirective, CaBlock(s.ca));
    ReplaceAllAbsent(template, CertDirective, CertBlock(s.clientCert));
    ReplaceAllAbsent(template, KeyDirective, KeyBlock(s.clientKey));
    ReplaceAllAbsent(template, TlsAuthDirective, TlsAuthBlock(s.taKey));
  }

  /** The CA directive becomes the CA block, as long as the certificate does
      not itself hold one of the later directives. */
  lemma EmbedCa(s: Secrets)
    requires !Contains(CaBlock(s.ca), CertDirective) && !Contains(CaBlock(s.ca), KeyDirective)
    requires !Contains(CaBlock(s.ca), TlsAuthDirective)
    ensures Embed(CaDirective, s) == CaBlock(s.ca)
  {
    var b := CaBlock(s.ca);
    ReplaceAllWhole(CaDirective, b);
    ReplaceAllAbsent(b, CertDirective, CertBlock(s.clientCert));
    ReplaceAllAbsent(b, KeyDirective, KeyBlock(s.clientKey));
    ReplaceAllAbsent(b, TlsAuthDirective, TlsAuthBlock(s.taKey));
  }

  /** The client-certificate directive becomes the certificate block, as long
      as the certificate does not itself hold one of the later directives. */
  lemma EmbedCert(s: Secrets)
    requires !Contains(CertBlock(s.clientCert), KeyDirective)
    requires !Contains(CertBlock(s.clientCert), TlsAuthDirective)
    ensures Embed(CertDirective, s) == CertBlock(s.clientCert)
  {
    var b := CertBlock(s.clientCert);
    CertHoldsNoEarlier();
    ReplaceAllAbsent(CertDirective, CaDirective, CaBlock(s.ca));
    ReplaceAllWhole(CertDirective, b);
    ReplaceAllAbsent(b, KeyDirective, KeyBlock(s.clientKey));
    ReplaceAllAbsent(b, TlsAuthDirective, TlsAuthBlock(s.taKey));
  }

  /** The client-key directive becomes the key block, as long as the key does
      not itself hold the TLS-auth directive. */
  lemma EmbedKey(s: Secrets)
    requires !Contains(KeyBlock(s.clientKey), TlsAuthDirective)
    ensures Embed(KeyDirective, s) == KeyBlock(s.clientKey)
  {
    var b := KeyBlock(s.clientKey);
    KeyHoldsNoEarlier();
    ReplaceAllAbsent(KeyDirective, CaDirective, CaBlock(s.ca));
    ReplaceAllAbsent(KeyDirective, CertDirective, CertBlock(s.clientCert));
    ReplaceAllWhole(KeyDirective, b);
    ReplaceAllAbsent(b, TlsAuthDirective, TlsAuthBlock(s.taKey));
  }

  /** The TLS-auth directive becomes the TLS-auth block followed by the key
      direction, whatever the key holds. */
  lemma EmbedTlsAuth(s: Secrets)
    ensures Embed(TlsAuthDirective, s) == TlsAuthBlock(s.taKey)
  {
    TlsAuthHoldsNoEarlier();
    ReplaceAllAbsent(TlsAuthDirective, CaDirective, CaBlock(s.ca));
    ReplaceAllAbsent(TlsAuthDirective, CertDirective, CertBlock(s.clientCert));
    ReplaceAllAbsent(TlsAuthDirective, KeyDirective, KeyBlock(s.clientKey));
    ReplaceAllWhole(TlsAuthDirective, TlsAuthBlock(s.taKey));
  }

  /** No directive spans a line break, so the template is embedded line by
      line: embedding two lines joined by "\n" embeds each on its own. With
      `EmbedCa` to `EmbedTlsAuth` this places each block exactly where its
      directive stood as a whole line. */
  lemma EmbedLines(a: string, b: string, s: Secrets)
    ensures Embed(a + "\n" + b, s) == Embed(a, s) + "\n" + Embed(b, s)
  {
    assert '\n' !in CaDirective && '\n' !in CertDirective;
    assert '\n' !in KeyDirective && '\n' !in TlsAuthDirective;
    var ca, cert, key := CaBlock(s.ca), CertBlock(s.clientCert), KeyBlock(s.clientKey);
    ReplaceAllSplit(a, '\n', b, CaDirective, ca);
    var a1, b1 := ReplaceAll(a, CaDirective, ca), ReplaceAll(b, CaDirective, ca);
    ReplaceAllSplit(a1, '\n', b1, CertDirective, cert);
    var a2, b2 := ReplaceAll(a1, CertDirective, cert), ReplaceAll(b1, CertDirective, cert);
    ReplaceAllSplit(a2, '\n', b2, KeyDirective, key);
    var a3, b3 := ReplaceAll(a2, KeyDirective, key), ReplaceAll(b2, KeyDirective, key);
    ReplaceAllSplit(a3, '\n', b3, TlsAuthDirective, TlsAuthBlock(s.taKey));
  }

  /** A pattern holding a character that `s` lacks does not occur in `s`. */
  lemma AbsentCharNoMatch(s: string, t: string, k: nat)
    requires k < |t| && t[k] !in s
    ensures !Contains(s, t)
  {}

  /** No directive holds an earlier one, so each one survives the earlier
      replacements intact: the certificate directive lacks the 'a' of the CA
      directive, the key directive lacks that 'a' and the certificate
      directive's 'r', and the TLS-auth directive lacks the 'c' all three
      earlier directives hold. */
  lemma CertHoldsNoEarlier()
    ensures !Contains(CertDirective, CaDirective)
  {
    assert 'a' !in CertDirective;
    AbsentCharNoMatch(CertDirective, CaDirective, 1);
  }

  lemma KeyHoldsNoEarlier()
    ensures !Contains(KeyDirective, CaDirective) && !Contains(KeyDirective, CertDirective)
  {
    assert 'a' !in KeyDirective;
    AbsentCharNoMatch(KeyDirective, CaDirective, 1);
    assert 'r' !in KeyDirective;
    AbsentCharNoMatch(KeyDirective, CertDirective, 2);
  }

  lemma TlsAuthHoldsNoEarlier()
    ensures !Contains(TlsAuthDirective, CaDirective) && !Contains(TlsAuthDirective, CertDirective)
    ensures !Contains(TlsAuthDirective, KeyDirective)
  {
    assert 'c' !in TlsAuthDirective;
    AbsentCharNoMatch(TlsAuthDirective, CaDirective, 0);
    AbsentCharNoMatch(TlsAuthDirective, CertDirective, 0);
    AbsentCharNoMatch(TlsAuthDirective, KeyDirective, 4);
  }

  /** The name of the written file, `f'client{self.id}.ovpn'`; an investigator
      not yet saved has no id, which Python writes as "None". */
  function OutputName(id: Option<nat>): (name: string)
    ensures |name| > 10 && name[..6] == "client" && name[|name| - 5..] == ".ovpn"
  {
    var shown := match id
      case Some(n) => NatToString(n)
      case None => "None";
    "client" + shown + ".ovpn"
  }

  /** Two investigators get the same file name only when they have the same
      id, so no configuration overwrites another's. */
  lemma OutputNameInjective(a: Option<nat>, b: Option<nat>)
    requires OutputName(a) == OutputName(b)
    ensures a == b
  {
    var sa := if a.Some? then NatToString(a.value) else "None";
    var sb := if b.Some? then NatToString(b.value) else "None";
    assert OutputName(a)[6..|OutputName(a)| - 5] == sa;
    assert OutputName(b)[6..|OutputName(b)| - 5] == sb;
    if a.Some? && b.Some? {
      NatToStringInjective(a.value, b.value);
    }
  }

  /** What the files hold when they can all be read: the template and the
      four files it refers to. */
  datatype Inputs = Inputs(template: string, secrets: Secrets)

  /** The outcome of a generation: the file written, or the exception raised. */
  datatype Outcome = Written(name: string, content: string) | Failed

  /** The outcome for an investigator id, the files as read (`None` when one
      of them cannot be read) and whether the write succeeds. */
  function Generation(id: Option<nat>, read: Option<Inputs>, writeOk: bool): (r: Outcome)
    ensures r.Written? <==> read.Some? && writeOk
    ensures r.Written? ==> r.name == OutputName(id) && r.content == Embed(read.value.template, read.value.secrets)
  {
    match read
    case None => Failed
    case Some(inputs) =>
      if writeOk then Written(OutputName(id), Embed(inputs.template, inputs.secrets)) else Failed
  }

  /** The investigator, with the fields generation reads and writes. */
  class Enqueteur {
    const id: Option<nat>
    var vpnConfigGenerated: bool

    /** A new investigator: the flag starts false. */
    constructor (id: Option<nat>)
      ensures this.id == id && !vpnConfigGenerated
    {
      this.id := id;
      vpnConfigGenerated := false;
    }

    /** `generate_vpn_config`, with file reading and writing as parameters:
        the flag is set only once the file is written; a failure leaves it
        as it was. */
    method GenerateVpnConfig(read: Option<Inputs>, writeOk: bool) returns (outcome: Outcome)
      modifies this
      ensures outcome == Generation(id, read, writeOk)
      ensures vpnConfigGenerated == (old(vpnConfigGenerated) || outcome.Written?)
    {
      if read.None? {
        return Failed;
      }
      var configContent := read.value.template;
      var s := read.value.secrets;
      configContent := ReplaceAll(configContent, CaDirective, CaBlock(s.ca));
      configContent := ReplaceAll(configContent, CertDirective, CertBlock(s.clientCert));
      configContent := ReplaceAll(configContent, KeyDirective, KeyBlock(s.clientKey));
      configContent := ReplaceAll(configContent, TlsAuthDirective, TlsAuthBlock(s.taKey));
      var outputFile := OutputName(id);
      if !writeOk {
        return Failed;
      }
      vpnConfigGenerated := true;
      outcome := Written(outputFile, configContent);
    }
  }
}
