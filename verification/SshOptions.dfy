/** The white list of `-o` options: one option, a submitted list, and the text of the form. */
module SshOptions {
  import opened Common
  import opened Text
  import opened OptionText

  datatype OptionKey =
    | ServerAliveInterval
    | ServerAliveCountMax
    | ConnectTimeout
    | Ciphers
    | MACs
    | KexAlgorithms
    | HostKeyAlgorithms
    | ProxyCommand

  datatype SshOption = SshOption(key: string, value: string)

  function Name(k: OptionKey): string {
    match k
    case ServerAliveInterval => "ServerAliveInterval"
    case ServerAliveCountMax => "ServerAliveCountMax"
    case ConnectTimeout => "ConnectTimeout"
    case Ciphers => "Ciphers"
    case MACs => "MACs"
    case KexAlgorithms => "KexAlgorithms"
    case HostKeyAlgorithms => "HostKeyAlgorithms"
    case ProxyCommand => "ProxyCommand"
  }

  function LowerName(k: OptionKey): string {
    match k
    case ServerAliveInterval => "serveraliveinterval"
    case ServerAliveCountMax => "serveralivecountmax"
    case ConnectTimeout => "connecttimeout"
    case Ciphers => "ciphers"
    case MACs => "macs"
    case KexAlgorithms => "kexalgorithms"
    case HostKeyAlgorithms => "hostkeyalgorithms"
    case ProxyCommand => "proxycommand"
  }

  /**
   Lower case as far as these names can tell: besides A to Z only the Kelvin sign has an
   ASCII letter as its lower case.
   */
  function LowerChar(c: char): char {
    if 'A' <= c <= 'Z' then c - 'A' + 'a' else if c == '\U{212A}' then 'k' else c
  }

  function Lower(s: string): string {
    seq(|s|, i requires 0 <= i < |s| => LowerChar(s[i]))
  }

  function FromLower(s: string): Option<OptionKey> {
    if s == LowerName(ServerAliveInterval) then Some(ServerAliveInterval)
    else if s == LowerName(ServerAliveCountMax) then Some(ServerAliveCountMax)
    else if s == LowerName(ConnectTimeout) then Some(ConnectTimeout)
    else if s == LowerName(Ciphers) then Some(Ciphers)
    else if s == LowerName(MACs) then Some(MACs)
    else if s == LowerName(KexAlgorithms) then Some(KexAlgorithms)
    else if s == LowerName(HostKeyAlgorithms) then Some(HostKeyAlgorithms)
    else if s == LowerName(ProxyCommand) then Some(ProxyCommand)
    else None
  }

  /** The key a spelling stands for. */
  function Canonical(raw: string): Option<OptionKey> {
    FromLower(Lower(raw))
  }

  datatype Range = Range(min: nat, max: nat)

  function RangeOf(k: OptionKey): Option<Range> {
    match k
    case ServerAliveInterval => Some(Range(0, 600))
    case ServerAliveCountMax => Some(Range(1, 100))
    case ConnectTimeout => Some(Range(1, 120))
    case _ => None
  }

  predicate IsListKey(k: OptionKey) {
    k == Ciphers || k == MACs || k == KexAlgorithms || k == HostKeyAlgorithms
  }

  function Unquote(value: string): string {
    var t := Trim(value);
    var n := |t|;
    if n >= 2 && t[0] == t[n - 1] && (t[0] == '"' || t[0] == '\'') then t[1..n - 1] else t
  }

  predicate TokenChar(c: char) {
    || 'A' <= c <= 'Z' || 'a' <= c <= 'z' || IsDigit(c)
    || c == '@' || c == '.' || c == '_' || c == '+' || c == '-'
  }

  predicate IsToken(s: string) {
    s != "" && forall c :: c in s ==> TokenChar(c)
  }

  datatype Reason = Unsupported | ProxyAsOption | EmptyValue | NotANumber | OutOfRange | BadToken

  datatype Refusal = Refusal(key: string, reason: Reason)

  /** What is wrong with a normalized value, if anything. */
  function ValueFault(k: OptionKey, v: string): Option<Reason> {
    if v == "" then Some(EmptyValue)
    else if RangeOf(k).Some? && !AllDigits(v) then Some(NotANumber)
    else if RangeOf(k).Some? && !(RangeOf(k).value.min <= ValueOf(v) <= RangeOf(k).value.max) then Some(OutOfRange)
    else if IsListKey(k) && exists t :: t in Split(v, ',') && !IsToken(t) then Some(BadToken)
    else None
  }

  function Validate(key: string, value: string): Result<SshOption, Refusal> {
    var raw := Trim(key);
    match Canonical(raw)
    case None => Err(Refusal(raw, Unsupported))
    case Some(ProxyCommand) => Err(Refusal(raw, ProxyAsOption))
    case Some(k) =>
      var v := Unquote(value);
      match ValueFault(k, v)
      case Some(reason) => Err(Refusal(Name(k), reason))
      case None => Ok(SshOption(Name(k), v))
  }

  method SomeBadToken(tokens: seq<string>) returns (bad: bool)
    ensures bad <==> exists t :: t in tokens && !IsToken(t)
  {
    for i := 0 to |tokens|
      invariant forall j :: 0 <= j < i ==> IsToken(tokens[j])
    {
      if !IsToken(tokens[i]) { return true; }
    }
    bad := false;
  }

  /** validateSshOption. */
  method ValidateSshOption(key: string, value: string) returns (r: Result<SshOption, Refusal>)
    ensures r == Validate(key, value)
  {
    var raw := Trim(key);
    var canonical := Canonical(raw);
    if canonical.None? { return Err(Refusal(raw, Unsupported)); }
    var k := canonical.value;
    if k == ProxyCommand { return Err(Refusal(raw, ProxyAsOption)); }
    var v := Unquote(value);
    if v == "" { return Err(Refusal(Name(k), EmptyValue)); }
    var range := RangeOf(k);
    if range.Some? {
      if !AllDigits(v) { return Err(Refusal(Name(k), NotANumber)); }
      if ValueOf(v) < range.value.min || ValueOf(v) > range.value.max { return Err(Refusal(Name(k), OutOfRange)); }
    }
    if IsListKey(k) {
      var bad := SomeBadToken(Split(v, ','));
      if bad { return Err(Refusal(Name(k), BadToken)); }
    }
    r := Ok(SshOption(Name(k), v));
  }

  // ---- what is accepted stays as it is ----

  /** An option as validation returns it. */
  predicate Clean(o: SshOption) {
    exists k :: o.key == Name(k) && k != ProxyCommand && ValueFault(k, o.value).None?
  }

  lemma ServerNamesLower()
    ensures Lower("ServerAliveInterval") == "serveraliveinterval"
    ensures Lower("ServerAliveCountMax") == "serveralivecountmax"
  {
  }

  lemma LongNamesLower()
    ensures Lower("ConnectTimeout") == "connecttimeout"
    ensures Lower("HostKeyAlgorithms") == "hostkeyalgorithms"
  {
  }

  lemma ShortNamesLower()
    ensures Lower("Ciphers") == "ciphers"
    ensures Lower("MACs") == "macs"
    ensures Lower("KexAlgorithms") == "kexalgorithms"
    ensures Lower("ProxyCommand") == "proxycommand"
  {
  }

  lemma NameLowers(k: OptionKey)
    ensures Lower(Name(k)) == LowerName(k)
  {
    ServerNamesLower();
    LongNamesLower();
    ShortNamesLower();
  }

  lemma LowerNamesDiffer(k: OptionKey)
    ensures FromLower(LowerName(k)) == Some(k)
  {
    assert LowerName(ServerAliveInterval)[11] != LowerName(ServerAliveCountMax)[11];
  }

  lemma NameLetters(k: OptionKey)
    ensures Name(k) != "" && forall c :: c in Name(k) ==> 'A' <= c <= 'Z' || 'a' <= c <= 'z'
  {
  }

  lemma LettersTrimmed(s: string)
    requires s != "" && forall c :: c in s ==> 'A' <= c <= 'Z' || 'a' <= c <= 'z'
    ensures Trimmed(s) && Trim(s) == s
  {
    assert s[0] in s && s[|s| - 1] in s;
    TrimKeepsTrimmed(s);
  }

  lemma NameIsCanonical(k: OptionKey)
    ensures Trimmed(Name(k)) && Trim(Name(k)) == Name(k)
    ensures Canonical(Name(k)) == Some(k)
  {
    NameLetters(k);
    LettersTrimmed(Name(k));
    assert Lower(Name(k)) == LowerName(k) by { NameLowers(k); }
    LowerNamesDiffer(k);
  }

  predicate ValueChar(c: char) {
    TokenChar(c) || c == ','
  }

  lemma {:induction false} ListChars(v: string)
    requires forall t :: t in Split(v, ',') ==> IsToken(t)
    ensures forall c :: c in v ==> ValueChar(c)
    decreases |v|
  {
    var i := IndexOf(v, ',');
    assert Split(v, ',')[0] == v[..i];
    assert IsToken(v[..i]);
    if i < |v| {
      assert Split(v, ',') == [v[..i]] + Split(v[i + 1..], ',');
      ListChars(v[i + 1..]);
      assert v == v[..i] + [','] + v[i + 1..];
    } else {
      assert v[..i] == v;
    }
  }

  /** An accepted value has no white space and no quote, so that it can be read again. */
  lemma AcceptedChars(k: OptionKey, v: string)
    requires ValueFault(k, v).None? && k != ProxyCommand
    ensures v != "" && forall c :: c in v ==> ValueChar(c)
  {
    if IsListKey(k) { ListChars(v); }
  }

  lemma ValueCharsStay(v: string)
    requires v != "" && forall c :: c in v ==> ValueChar(c)
    ensures Unquote(v) == v && Trimmed(v) && '\n' !in v
  {
    assert ValueChar(v[0]) && ValueChar(v[|v| - 1]);
    TrimKeepsTrimmed(v);
  }

  /** Whatever is accepted is accepted again, unchanged. */
  lemma ValidateIsIdempotent(key: string, value: string)
    requires Validate(key, value).Ok?
    ensures var o := Validate(key, value).value; Clean(o) && Validate(o.key, o.value) == Ok(o)
  {
    var k := Canonical(Trim(key)).value;
    CleanStays(k, Unquote(value));
  }

  lemma CleanStays(k: OptionKey, v: string)
    requires k != ProxyCommand && ValueFault(k, v).None?
    ensures Clean(SshOption(Name(k), v))
    ensures Validate(Name(k), v) == Ok(SshOption(Name(k), v))
  {
    NameIsCanonical(k);
    AcceptedChars(k, v);
    ValueCharsStay(v);
  }

  lemma CleanKey(o: SshOption) returns (k: OptionKey)
    requires Clean(o)
    ensures o.key == Name(k) && k != ProxyCommand && ValueFault(k, o.value).None?
  {
    k :| o.key == Name(k) && k != ProxyCommand && ValueFault(k, o.value).None?;
  }

  /** The accepted options are exactly those that validation leaves alone. */
  lemma CleanIsFixed(o: SshOption)
    ensures Clean(o) <==> Validate(o.key, o.value) == Ok(o)
  {
    if Clean(o) {
      var k := CleanKey(o);
      CleanStays(k, o.value);
    } else if Validate(o.key, o.value) == Ok(o) {
      ValidateIsIdempotent(o.key, o.value);
    }
  }
}
