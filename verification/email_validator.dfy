/**
  The shape check `^[^\s@]+@[^\s@]+\.[^\s@]+$` shared by the form validator
  and the corporate e-mail validator: a non-empty local part, one `@`, and a
  domain with a dot that has at least one character on each side; no white
  space and no second `@` anywhere.
 */
module EmailShape {
  import opened StringUtil

  predicate NoSpace(s: string) {
    forall i :: 0 <= i < |s| ==> !IsJsSpace(s[i])
  }

  /** The character class `[^\s@]+`. */
  predicate Atom(s: string) {
    |s| > 0 && NoSpace(s) && '@' !in s
  }

  /** `s` matches with its only `@` at index `k`. */
  predicate MatchesAt(s: string, k: int) {
    && 0 < k < |s| && s[k] == '@'
    && (forall i :: 0 <= i < |s| && i != k ==> s[i] != '@')
    && exists j | k + 1 < j < |s| - 1 :: s[j] == '.'
  }

  /** `^[^\s@]+@[^\s@]+\.[^\s@]+$` matched against the whole of `s`. */
  predicate MatchesEmailRegex(s: string) {
    NoSpace(s) && exists k | 0 < k < |s| :: MatchesAt(s, k)
  }

  /** Every string built as the regex describes matches it. */
  lemma MatchesFromParts(local: string, host: string, tld: string)
    requires Atom(local) && Atom(host) && Atom(tld)
    ensures MatchesEmailRegex(local + "@" + host + "." + tld)
  {
    var s := local + "@" + host + "." + tld;
    var k := |local|;
    var j := |local| + 1 + |host|;
    assert s[j] == '.';
    forall i | 0 <= i < |s| && i != k ensures s[i] != '@' && !IsJsSpace(s[i]) {
      if i < k { assert s[i] == local[i]; }
      else if k < i < j { assert s[i] == host[i - k - 1]; }
      else if i > j { assert s[i] == tld[i - j - 1]; }
    }
    assert MatchesAt(s, k);
  }

  /** Every matching string splits into the three non-empty parts of the regex. */
  lemma PartsFromMatch(s: string) returns (local: string, host: string, tld: string)
    requires MatchesEmailRegex(s)
    ensures Atom(local) && Atom(host) && Atom(tld)
    ensures s == local + "@" + host + "." + tld
  {
    var k :| 0 < k < |s| && MatchesAt(s, k);
    var j :| k + 1 < j < |s| - 1 && s[j] == '.';
    local, host, tld := s[..k], s[k + 1..j], s[j + 1..];
    assert s == local + "@" + host + "." + tld;
    SliceIsAtom(s, k, 0, k);
    SliceIsAtom(s, k, k + 1, j);
    SliceIsAtom(s, k, j + 1, |s|);
  }

  /** A non-empty slice of a matching string that avoids its `@` is an atom. */
  lemma SliceIsAtom(s: string, k: int, a: int, b: int)
    requires NoSpace(s) && MatchesAt(s, k)
    requires 0 <= a < b <= |s| && !(a <= k < b)
    ensures Atom(s[a..b])
  {
    var t := s[a..b];
    forall i | 0 <= i < |t| ensures t[i] != '@' && !IsJsSpace(t[i]) {
      assert t[i] == s[a + i];
    }
  }

  /** The text after the `@` of a matching address, `email.split('@')[1]`. */
  function Domain(s: string): (d: string)
    requires MatchesEmailRegex(s)
    ensures |d| >= 3 && '@' !in d && '.' in d
    ensures exists k | 0 < k < |s| :: MatchesAt(s, k) && d == s[k + 1..]
  {
    var k :| 0 < k < |s| && MatchesAt(s, k);
    var a, d := s[..k], s[k + 1..];
    assert s == a + ['@'] + d;
    assert '@' !in a by {
      forall i | 0 <= i < |a| ensures a[i] != '@' { assert a[i] == s[i]; }
    }
    assert '@' !in d by {
      forall i | 0 <= i < |d| ensures d[i] != '@' { assert d[i] == s[k + 1 + i]; }
    }
    var j :| k + 1 < j < |s| - 1 && s[j] == '.';
    assert d[j - k - 1] == '.';
    SplitFirst(a, '@', d);
    SplitNoSeparator(d, '@');
    Split(s, '@')[1]
  }
}

/**
  The corporate e-mail check used at sign-up: a well-formed address whose
  domain is not a free or disposable mailbox provider and, in the full
  check, whose domain publishes mail exchangers.
 */
module EmailValidator {
  import opened StringUtil
  import opened EmailShape

  const FreeEmailProviders: seq<string> := [
    "gmail.com", "googlemail.com",
    "outlook.com", "hotmail.com", "live.com", "msn.com",
    "yahoo.com", "yahoo.com.br", "ymail.com", "rocketmail.com",
    "bol.com.br", "uol.com.br", "ig.com.br", "terra.com.br",
    "globo.com", "globomail.com", "r7.com",
    "aol.com", "icloud.com", "me.com", "mac.com",
    "protonmail.com", "mail.com", "gmx.com", "zoho.com",
    "yandex.com", "mail.ru",
    "tempmail.com", "guerrillamail.com", "10minutemail.com",
    "mailinator.com", "throwaway.email", "temp-mail.org"
  ]

  /** The initial whitelist of known corporate domains. */
  const KnownCorporateDomains: seq<string> := [
    "petrobras.com.br", "vale.com", "itau.com.br", "bradesco.com.br",
    "santander.com.br", "ambev.com.br", "jbs.com.br", "embraer.com.br",
    "totvs.com.br", "stefanini.com", "ci&t.com", "thoughtworks.com"
  ]

  datatype EmailValidationResult = EmailValidationResult(
    isValid: bool,
    isCorporate: bool,
    domain: string,
    error: string,            // "" when there is none
    warnings: seq<string>,
    suggestions: seq<string>)

  function Invalid(domain: string, error: string, suggestions: seq<string>): EmailValidationResult {
    EmailValidationResult(false, false, domain, error, [], suggestions)
  }

  const FormatError := "Formato de email inválido"
  const FreeProviderErrorSync := "Email corporativo obrigatório. Emails gratuitos não são permitidos."
  const FreeProviderError := "Email corporativo obrigatório. Emails gratuitos (Gmail, Outlook, etc.) não são permitidos."
  const IncompleteDomainError := "Domínio incompleto"

  /** The lower-cased domain of a matching address. */
  function LowerDomain(email: string): (d: string)
    requires MatchesEmailRegex(email)
    ensures |d| >= 3 && '.' in d
  {
    LowerKeepsDot(Domain(email));
    ToLower(Domain(email))
  }

  lemma LowerKeepsDot(s: string)
    requires '.' in s
    ensures '.' in ToLower(s)
  {
    var i :| 0 <= i < |s| && s[i] == '.';
    assert ToLower(s)[i] == '.';
  }

  /** A domain containing a dot splits into at least two labels. */
  lemma {:induction false} DottedSplitsInTwo(d: string)
    requires '.' in d
    ensures |Split(d, '.')| >= 2
  {
    var i :| 0 <= i < |d| && d[i] == '.';
    CountAtLeastOne(d, '.', i);
  }

  lemma {:induction false} CountAtLeastOne(s: string, c: char, i: int)
    requires 0 <= i < |s| && s[i] == c
    ensures CountChar(s, c) >= 1
  {
    if i > 0 {
      CountAtLeastOne(s[1..], c, i - 1);
    }
  }

  /**
    `validateCorporateEmailSync`. The format is checked first, then the free
    provider list on the lower-cased domain, then that the domain has two
    labels.
   */
  function ValidateCorporateEmailSync(email: string): (r: EmailValidationResult)
    ensures r.isValid == r.isCorporate
    ensures !MatchesEmailRegex(email) ==> r == Invalid("", FormatError, [])
    ensures MatchesEmailRegex(email) ==> r.domain == LowerDomain(email)
    ensures r.isValid ==> MatchesEmailRegex(email) && LowerDomain(email) !in FreeEmailProviders && r.error == ""
    ensures MatchesEmailRegex(email) && LowerDomain(email) in FreeEmailProviders
            ==> r == Invalid(LowerDomain(email), FreeProviderErrorSync, [])
  {
    if !MatchesEmailRegex(email) then Invalid("", FormatError, [])
    else
      var domain := LowerDomain(email);
      if domain in FreeEmailProviders then Invalid(domain, FreeProviderErrorSync, [])
      else if |Split(domain, '.')| < 2 then Invalid(domain, IncompleteDomainError, [])
      else EmailValidationResult(true, true, domain, "", [], [])
  }

  /**
    The "incomplete domain" error is never reported, because the format check
    already demands a dot: every well-formed address off the free list is
    accepted.
   */
  lemma SyncAcceptsCorporate(email: string)
    ensures ValidateCorporateEmailSync(email).error != IncompleteDomainError
    ensures MatchesEmailRegex(email) && LowerDomain(email) !in FreeEmailProviders
            ==> ValidateCorporateEmailSync(email).isValid
  {
    if MatchesEmailRegex(email) {
      DottedSplitsInTwo(LowerDomain(email));
    }
  }

  /** The domain of `local@host.tld` is `host.tld`. */
  lemma DomainOfParts(local: string, host: string, tld: string)
    requires Atom(local) && Atom(host) && Atom(tld)
    ensures MatchesEmailRegex(local + "@" + host + "." + tld)
    ensures Domain(local + "@" + host + "." + tld) == host + "." + tld
  {
    MatchesFromParts(local, host, tld);
    var d := host + "." + tld;
    assert local + "@" + host + "." + tld == local + ['@'] + d;
    assert '@' !in d by {
      forall i | 0 <= i < |d| ensures d[i] != '@' {
        if i < |host| { assert d[i] == host[i]; }
        else if i > |host| { assert d[i] == tld[i - |host| - 1]; }
      }
    }
    SplitFirst(local, '@', d);
    SplitNoSeparator(d, '@');
  }

  lemma LowerGmail()
    ensures ToLower("Gmail.COM") == FreeEmailProviders[0]
  {
    var low := ToLower("Gmail.COM");
    assert low[0] == 'g' && low[1] == 'm' && low[2] == 'a' && low[3] == 'i' && low[4] == 'l';
    assert low[5] == '.' && low[6] == 'c' && low[7] == 'o' && low[8] == 'm';
  }

  /** Free providers are refused whatever the case of the address. */
  lemma FreeProviderRefused(user: string)
    requires Atom(user)
    ensures !ValidateCorporateEmailSync(user + "@" + "Gmail" + "." + "COM").isValid
  {
    var email := user + "@" + "Gmail" + "." + "COM";
    LettersAtom("Gmail");
    LettersAtom("COM");
    DomainOfParts(user, "Gmail", "COM");
    assert Domain(email) == "Gmail.COM";
    LowerGmail();
    assert LowerDomain(email) == FreeEmailProviders[0];
  }

  /** A non-empty run of ASCII letters is an atom. */
  lemma LettersAtom(s: string)
    requires |s| > 0 && forall i :: 0 <= i < |s| ==> 'A' <= s[i] <= 'Z' || 'a' <= s[i] <= 'z'
    ensures Atom(s)
  {
  }

  // ---------------------------------------------------------------------------
  // Full check, with the DNS answer as an input
  // ---------------------------------------------------------------------------

  /** The outcome of resolving the domain's MX records. */
  datatype MxLookup = LookupFailed | MxRecords(exchanges: seq<string>)

  predicate AnyHostContains(hosts: seq<string>, a: string, b: string) {
    exists i | 0 <= i < |hosts| :: Contains(ToLower(hosts[i]), a) || Contains(ToLower(hosts[i]), b)
  }

  const GoogleInfraNote := "Email usa infraestrutura do Google Workspace (válido para empresas)"
  const MicrosoftInfraNote := "Email usa infraestrutura do Microsoft 365 (válido para empresas)"

  /**
    The infrastructure notes: the Google one when some exchanger's name
    contains `google.com` or `googlemail.com`, the Microsoft one when some
    contains `outlook.com` or `microsoft.com`, Google's first.
   */
  function InfraWarnings(hosts: seq<string>): (w: seq<string>)
    ensures |w| <= 2
    ensures GoogleInfraNote in w <==> AnyHostContains(hosts, "google.com", "googlemail.com")
    ensures MicrosoftInfraNote in w <==> AnyHostContains(hosts, "outlook.com", "microsoft.com")
    ensures forall k :: 0 <= k < |w| ==> w[k] == GoogleInfraNote || w[k] == MicrosoftInfraNote
    ensures |w| == 2 ==> w == [GoogleInfraNote, MicrosoftInfraNote]
  {
    assert |GoogleInfraNote| != |MicrosoftInfraNote|;
    (if AnyHostContains(hosts, "google.com", "googlemail.com") then [GoogleInfraNote] else [])
    + (if AnyHostContains(hosts, "outlook.com", "microsoft.com") then [MicrosoftInfraNote] else [])
  }

  const FreeProviderSuggestions := [
    "Use seu email corporativo (ex: seu.nome@suaempresa.com.br)",
    "Se sua empresa não possui email corporativo, entre em contato com nosso suporte"]
  const LookupFailedError :=
    "Não foi possível verificar o domínio de email. O domínio pode não existir ou estar mal configurado."
  const LookupFailedSuggestions := [
    "Verifique se digitou o email corretamente",
    "Confirme que o domínio da empresa está ativo",
    "Entre em contato com o TI da sua empresa",
    "Se o problema persistir, contate nosso suporte: suporte@simplifiqueia.com.br"]
  const NoMxError := "Domínio de email não possui servidor de email configurado"
  const NoMxSuggestions := [
    "Verifique se digitou o email corretamente",
    "Entre em contato com o TI da sua empresa"]
  const InvalidDomainError := "Domínio inválido"

  /** The text after the last dot, what `domain.split('.').pop()` gives. */
  function LastLabel(d: string): (t: string)
    ensures '.' !in t
    ensures |t| <= |d| && t == d[|d| - |t|..]
    ensures '.' !in d ==> t == d
    ensures '.' in d ==> |t| < |d| && d[|d| - |t| - 1] == '.'
  {
    var parts := Split(d, '.');
    SplitLastPiece(d, '.');
    parts[|parts| - 1]
  }

  /**
    `validateCorporateEmail`. After the format and free-provider checks the
    domain must resolve to at least one mail exchanger; a failed lookup also
    refuses the address. A last label of exactly one character is refused
    (an empty one, from a trailing dot, is let through).
   */
  function ValidateCorporateEmail(email: string, mx: MxLookup): (r: EmailValidationResult)
    ensures r.isValid == r.isCorporate
    ensures !MatchesEmailRegex(email) ==> r == Invalid("", FormatError, [])
    ensures r.isValid ==>
              && MatchesEmailRegex(email)
              && LowerDomain(email) !in FreeEmailProviders
              && mx.MxRecords? && |mx.exchanges| > 0
              && |LastLabel(LowerDomain(email))| != 1
              && r.warnings == InfraWarnings(mx.exchanges) && r.error == ""
    ensures mx.LookupFailed? ==> !r.isValid
  {
    if !MatchesEmailRegex(email) then Invalid("", FormatError, [])
    else
      var domain := LowerDomain(email);
      if domain in FreeEmailProviders then Invalid(domain, FreeProviderError, FreeProviderSuggestions)
      else match mx
        case LookupFailed => Invalid(domain, LookupFailedError, LookupFailedSuggestions)
        case MxRecords(hosts) =>
          if |hosts| == 0 then Invalid(domain, NoMxError, NoMxSuggestions)
          else
            var tld := LastLabel(domain);
            if tld != "" && |tld| < 2 then Invalid(domain, InvalidDomainError, [])
            else if |Split(domain, '.')| < 2 then Invalid(domain, IncompleteDomainError, [])
            else EmailValidationResult(true, true, domain, "", InfraWarnings(hosts), [])
  }

  /** A well-formed corporate address whose domain has mail exchangers and a proper last label is accepted. */
  lemma FullCheckAccepts(email: string, hosts: seq<string>)
    requires MatchesEmailRegex(email) && LowerDomain(email) !in FreeEmailProviders
    requires |hosts| > 0 && |LastLabel(LowerDomain(email))| != 1
    ensures ValidateCorporateEmail(email, MxRecords(hosts)).isValid
  {
    DottedSplitsInTwo(LowerDomain(email));
  }

  /** Whatever the DNS says, the full check accepts no address the quick check refuses. */
  lemma FullCheckImpliesQuickCheck(email: string, mx: MxLookup)
    ensures ValidateCorporateEmail(email, mx).isValid ==> ValidateCorporateEmailSync(email).isValid
  {
  }

  // ---------------------------------------------------------------------------
  // Whitelist
  // ---------------------------------------------------------------------------

  /** `isWhitelisted`: the lower-cased domain is on the list. */
  predicate IsWhitelisted(whitelist: seq<string>, domain: string) {
    ToLower(domain) in whitelist
  }

  /** `addToWhitelist`: appends the lower-cased domain unless it is already listed. */
  function AddToWhitelist(whitelist: seq<string>, domain: string): (r: seq<string>)
    ensures NoDuplicates(whitelist) ==> NoDuplicates(r)
    ensures |r| >= |whitelist|
    ensures forall i :: 0 <= i < |whitelist| ==> r[i] == whitelist[i]
  {
    var d := ToLower(domain);
    if d in whitelist then whitelist else whitelist + [d]
  }

  /** After adding a domain, exactly that domain (in any case) joins the whitelist. */
  lemma AddToWhitelistSpec(whitelist: seq<string>, domain: string, other: string)
    ensures IsWhitelisted(AddToWhitelist(whitelist, domain), other)
            <==> IsWhitelisted(whitelist, other) || ToLower(other) == ToLower(domain)
  {
  }

  /** Adding the same domain twice is the same as adding it once. */
  lemma AddToWhitelistIdempotent(whitelist: seq<string>, domain: string)
    ensures AddToWhitelist(AddToWhitelist(whitelist, domain), domain) == AddToWhitelist(whitelist, domain)
  {
  }
}
