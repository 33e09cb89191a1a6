/** How the Go side reads an option list: the client configuration and the keep-alive settings. */
module GoOptions {
  import opened Common
  import opened Text
  import opened OptionText
  import opened SshOptions
  import opened SshOptionLists

  /** What `strings.TrimSpace` removes. */
  predicate GoSpace(c: char) {
    || '\t' <= c <= '\r'
    || c == ' ' || c == '\U{0085}' || c == '\U{00A0}' || c == '\U{1680}' || '\U{2000}' <= c <= '\U{200A}'
    || c == '\U{2028}' || c == '\U{2029}' || c == '\U{202F}' || c == '\U{205F}' || c == '\U{3000}'
  }

  function GoTrimLeft(s: string): string {
    if s != "" && GoSpace(s[0]) then GoTrimLeft(s[1..]) else s
  }

  function GoTrimRight(s: string): string {
    if s != "" && GoSpace(s[|s| - 1]) then GoTrimRight(s[..|s| - 1]) else s
  }

  function GoTrim(s: string): string {
    GoTrimRight(GoTrimLeft(s))
  }

  /** `strings.ToLower` maps one more character onto an ASCII letter than JavaScript does. */
  function GoLower(s: string): string {
    seq(|s|, i requires 0 <= i < |s| => if s[i] == '\U{0130}' then 'i' else LowerChar(s[i]))
  }

  const INT_MAX: int := 0x7FFF_FFFF_FFFF_FFFF

  /** `strconv.Atoi`: an optional sign, then digits only, within 64 bits. */
  function Atoi(s: string): Option<int> {
    var digits := if s != "" && (s[0] == '-' || s[0] == '+') then s[1..] else s;
    if digits == "" || !AllDigits(digits) then None
    else
      var size: int := ValueOf(digits);
      var n := if s[0] == '-' then -size else size;
      if -INT_MAX - 1 <= n <= INT_MAX then Some(n) else None
  }

  function KeptTokens(raw: seq<string>): seq<string> {
    if raw == [] then []
    else
      var token := GoTrim(raw[|raw| - 1]);
      KeptTokens(raw[..|raw| - 1]) + (if token != "" then [token] else [])
  }

  method SplitOptionList(value: string) returns (out: seq<string>)
    ensures out == KeptTokens(Split(value, ','))
  {
    var raw := Split(value, ',');
    out := [];
    for i := 0 to |raw|
      invariant out == KeptTokens(raw[..i])
    {
      assert raw[..i + 1][..i] == raw[..i];
      var token := GoTrim(raw[i]);
      if token != "" { out := out + [token]; }
    }
    assert raw[..|raw|] == raw;
  }

  // ---- the two readers ----

  /** The case of the switch an option falls into. */
  function GoKey(o: SshOption): Option<OptionKey> {
    FromLower(GoLower(GoTrim(o.key)))
  }

  datatype Config = Config(timeout: int, ciphers: seq<string>, macs: seq<string>, kex: seq<string>, hostKeys: seq<string>)

  /** What one option does to the configuration; an unknown key or a bad number does nothing. */
  function Set(c: Config, o: SshOption): Config {
    var list := KeptTokens(Split(o.value, ','));
    var n := Atoi(GoTrim(o.value));
    match GoKey(o)
    case Some(Ciphers) => c.(ciphers := list)
    case Some(MACs) => c.(macs := list)
    case Some(KexAlgorithms) => c.(kex := list)
    case Some(HostKeyAlgorithms) => c.(hostKeys := list)
    case Some(ConnectTimeout) => if n.Some? && n.value > 0 then c.(timeout := n.value) else c
    case _ => c
  }

  function SetAll(c: Config, opts: seq<SshOption>): Config {
    if opts == [] then c else Set(SetAll(c, opts[..|opts| - 1]), opts[|opts| - 1])
  }

  class ClientConfig {
    var timeout: int
    var ciphers: seq<string>
    var macs: seq<string>
    var keyExchanges: seq<string>
    var hostKeyAlgorithms: seq<string>

    ghost function State(): Config
      reads this
    {
      Config(timeout, ciphers, macs, keyExchanges, hostKeyAlgorithms)
    }
  }

  /** applySshOptions; the time-out is in seconds. */
  method ApplySshOptions(opts: seq<SshOption>, cc: ClientConfig, defaultTimeout: int)
    modifies cc
    ensures cc.State() == SetAll(old(cc.State()).(timeout := defaultTimeout), opts)
  {
    cc.timeout := defaultTimeout;
    ghost var start := cc.State();
    for i := 0 to |opts|
      invariant cc.State() == SetAll(start, opts[..i])
    {
      assert opts[..i + 1][..i] == opts[..i];
      match GoKey(opts[i]) {
        case Some(Ciphers) => cc.ciphers := SplitOptionList(opts[i].value);
        case Some(MACs) => cc.macs := SplitOptionList(opts[i].value);
        case Some(KexAlgorithms) => cc.keyExchanges := SplitOptionList(opts[i].value);
        case Some(HostKeyAlgorithms) => cc.hostKeyAlgorithms := SplitOptionList(opts[i].value);
        case Some(ConnectTimeout) =>
          var n := Atoi(GoTrim(opts[i].value));
          if n.Some? && n.value > 0 { cc.timeout := n.value; }
        case _ =>
      }
    }
    assert opts[..|opts|] == opts;
  }

  datatype KeepAlive = KeepAlive(interval: int, maxFailures: int)

  function Noted(k: KeepAlive, o: SshOption): KeepAlive {
    var n := Atoi(GoTrim(o.value));
    match GoKey(o)
    case Some(ServerAliveInterval) => if n.Some? then k.(interval := n.value) else k
    case Some(ServerAliveCountMax) => if n.Some? && n.value > 0 then k.(maxFailures := n.value) else k
    case _ => k
  }

  function NotedAll(k: KeepAlive, opts: seq<SshOption>): KeepAlive {
    if opts == [] then k else Noted(NotedAll(k, opts[..|opts| - 1]), opts[|opts| - 1])
  }

  const DEFAULT_KEEPALIVE: KeepAlive := KeepAlive(0, 3)

  /** keepaliveFromOptions: None when keep-alive is off. */
  method KeepaliveFromOptions(opts: seq<SshOption>) returns (r: Option<KeepAlive>)
    ensures var k := NotedAll(DEFAULT_KEEPALIVE, opts); r == if k.interval > 0 then Some(k) else None
  {
    var interval, maxFailures := 0, 3;
    for i := 0 to |opts|
      invariant KeepAlive(interval, maxFailures) == NotedAll(DEFAULT_KEEPALIVE, opts[..i])
    {
      assert opts[..i + 1][..i] == opts[..i];
      var n := Atoi(GoTrim(opts[i].value));
      match GoKey(opts[i]) {
        case Some(ServerAliveInterval) => if n.Some? { interval := n.value; }
        case Some(ServerAliveCountMax) => if n.Some? && n.value > 0 { maxFailures := n.value; }
        case _ =>
      }
    }
    assert opts[..|opts|] == opts;
    if interval <= 0 { return None; }
    r := Some(KeepAlive(interval, maxFailures));
  }

  // ---- accepted options on the Go side ----

  /** The value of the last entry with the key, if there is one. */
  function LastOf(opts: seq<SshOption>, k: OptionKey): Option<string> {
    if opts == [] then None
    else if opts[|opts| - 1].key == Name(k) then Some(opts[|opts| - 1].value)
    else LastOf(opts[..|opts| - 1], k)
  }

  predicate NoSpaces(s: string) {
    forall c :: c in s ==> !GoSpace(c)
  }

  lemma NoSpacesStay(s: string)
    requires NoSpaces(s)
    ensures GoTrim(s) == s
  {
    if s != "" { assert s[0] in s && s[|s| - 1] in s; }
  }

  lemma GoKeyOf(o: SshOption, k: OptionKey)
    requires o.key == Name(k)
    ensures GoKey(o) == Some(k)
  {
    NameLetters(k);
    assert NoSpaces(o.key);
    NoSpacesStay(o.key);
    assert GoLower(o.key) == Lower(o.key) by {
      forall i | 0 <= i < |o.key| ensures o.key[i] != '\U{0130}' { assert o.key[i] in o.key; }
    }
    assert Canonical(o.key) == Some(k) by { NameIsCanonical(k); }
  }

  /** An accepted number reads as itself, leading zeros or not. */
  lemma AcceptedNumber(k: OptionKey, v: string)
    requires ValueFault(k, v).None? && RangeOf(k).Some?
    ensures AllDigits(v) && Atoi(GoTrim(v)) == Some(ValueOf(v))
    ensures RangeOf(k).value.min <= ValueOf(v) <= RangeOf(k).value.max
  {
    assert NoSpaces(v);
    NoSpacesStay(v);
    assert v[0] in v;
  }

  lemma {:induction false} TokensKept(raw: seq<string>)
    requires forall t :: t in raw ==> IsToken(t)
    ensures KeptTokens(raw) == raw
    decreases |raw|
  {
    if raw != [] {
      var n := |raw| - 1;
      assert raw == raw[..n] + [raw[n]];
      TokensKept(raw[..n]);
      assert IsToken(raw[n]);
      NoSpacesStay(raw[n]);
    }
  }

  /** No algorithm of an accepted list is lost, added, reordered or changed on the way. */
  lemma AcceptedList(k: OptionKey, v: string)
    requires ValueFault(k, v).None? && IsListKey(k)
    ensures KeptTokens(Split(v, ',')) == Split(v, ',')
    ensures Join(KeptTokens(Split(v, ',')), ',') == v
  {
    TokensKept(Split(v, ','));
    JoinSplit(v, ',');
  }

  function ListOr(v: Option<string>, default: seq<string>): seq<string> {
    if v.Some? then Split(v.value, ',') else default
  }

  function NumberOr(v: Option<string>, default: int): int {
    if v.Some? && AllDigits(v.value) then ValueOf(v.value) else default
  }

  lemma KeysDiffer(j: OptionKey, k: OptionKey)
    ensures Name(j) == Name(k) <==> j == k
  {
    NameIsCanonical(j);
    NameIsCanonical(k);
  }

  /** What an accepted option means to the client configuration. */
  function Meant(c: Config, k: OptionKey, v: string): Config
    requires k == ConnectTimeout ==> AllDigits(v)
  {
    match k
    case Ciphers => c.(ciphers := Split(v, ','))
    case MACs => c.(macs := Split(v, ','))
    case KexAlgorithms => c.(kex := Split(v, ','))
    case HostKeyAlgorithms => c.(hostKeys := Split(v, ','))
    case ConnectTimeout => c.(timeout := ValueOf(v))
    case _ => c
  }

  lemma SetIsMeant(c: Config, o: SshOption, k: OptionKey)
    requires o.key == Name(k) && k != ProxyCommand && ValueFault(k, o.value).None?
    ensures k == ConnectTimeout ==> AllDigits(o.value)
    ensures Set(c, o) == Meant(c, k, o.value)
  {
    GoKeyOf(o, k);
    if IsListKey(k) {
      ListIsMeant(c, o, k);
    } else if k == ConnectTimeout {
      AcceptedNumber(k, o.value);
    }
  }

  lemma ListIsMeant(c: Config, o: SshOption, k: OptionKey)
    requires GoKey(o) == Some(k) && IsListKey(k) && ValueFault(k, o.value).None?
    ensures Set(c, o) == Meant(c, k, o.value)
  {
    AcceptedList(k, o.value);
  }

  /** Every reader setting is the last value given for its key, read whole; without one it keeps its default. */
  function LastWins(c: Config, opts: seq<SshOption>): Config {
    Config(NumberOr(LastOf(opts, ConnectTimeout), c.timeout), ListOr(LastOf(opts, Ciphers), c.ciphers),
           ListOr(LastOf(opts, MACs), c.macs), ListOr(LastOf(opts, KexAlgorithms), c.kex),
           ListOr(LastOf(opts, HostKeyAlgorithms), c.hostKeys))
  }

  lemma LastOfOneMore(opts: seq<SshOption>, o: SshOption, k: OptionKey, j: OptionKey)
    requires o.key == Name(k)
    ensures LastOf(opts + [o], j) == if j == k then Some(o.value) else LastOf(opts, j)
  {
    KeysDiffer(j, k);
    assert (opts + [o])[..|opts|] == opts;
  }

  lemma LastWinsOneMore(c: Config, opts: seq<SshOption>, o: SshOption, k: OptionKey)
    requires o.key == Name(k) && (k == ConnectTimeout ==> AllDigits(o.value))
    ensures LastWins(c, opts + [o]) == Meant(LastWins(c, opts), k, o.value)
  {
    LastOfOneMore(opts, o, k, ConnectTimeout);
    LastOfOneMore(opts, o, k, Ciphers);
    LastOfOneMore(opts, o, k, MACs);
    LastOfOneMore(opts, o, k, KexAlgorithms);
    LastOfOneMore(opts, o, k, HostKeyAlgorithms);
  }

  lemma CleanParts(opts: seq<SshOption>)
    requires AllClean(opts) && opts != []
    ensures var n := |opts| - 1; opts == opts[..n] + [opts[n]] && AllClean(opts[..n]) && Clean(opts[n])
  {
  }

  lemma SetAllOneMore(c: Config, opts: seq<SshOption>, o: SshOption)
    ensures SetAll(c, opts + [o]) == Set(SetAll(c, opts), o)
  {
    assert (opts + [o])[..|opts|] == opts;
  }

  lemma SetsOneMore(c: Config, opts: seq<SshOption>, o: SshOption, sofar: Config)
    requires Clean(o) && sofar == LastWins(c, opts)
    ensures Set(sofar, o) == LastWins(c, opts + [o])
  {
    var k := CleanKey(o);
    SetIsMeant(sofar, o, k);
    LastWinsOneMore(c, opts, o, k);
  }

  /** On accepted options applySshOptions ignores no entry it is concerned with: the last of each key wins. */
  lemma {:induction false} AppliedIsLastWins(c: Config, opts: seq<SshOption>)
    requires AllClean(opts)
    ensures SetAll(c, opts) == LastWins(c, opts)
    decreases |opts|
  {
    if opts != [] {
      var before, o := opts[..|opts| - 1], opts[|opts| - 1];
      CleanParts(opts);
      AppliedIsLastWins(c, before);
      SetAllOneMore(c, before, o);
      SetsOneMore(c, before, o, SetAll(c, before));
    }
  }

  lemma NotedIsMeant(a: KeepAlive, o: SshOption, k: OptionKey)
    requires o.key == Name(k) && k != ProxyCommand && ValueFault(k, o.value).None?
    ensures RangeOf(k).Some? ==> AllDigits(o.value)
    ensures Noted(a, o) ==
            if k == ServerAliveInterval then a.(interval := ValueOf(o.value))
            else if k == ServerAliveCountMax then a.(maxFailures := ValueOf(o.value))
            else a
  {
    GoKeyOf(o, k);
    if RangeOf(k).Some? { AcceptedNumber(k, o.value); }
  }

  function LastAlive(opts: seq<SshOption>): KeepAlive {
    KeepAlive(NumberOr(LastOf(opts, ServerAliveInterval), 0), NumberOr(LastOf(opts, ServerAliveCountMax), 3))
  }

  lemma LastAliveOneMore(opts: seq<SshOption>, o: SshOption, k: OptionKey)
    requires o.key == Name(k) && (RangeOf(k).Some? ==> AllDigits(o.value))
    ensures LastAlive(opts + [o]) ==
            if k == ServerAliveInterval then LastAlive(opts).(interval := ValueOf(o.value))
            else if k == ServerAliveCountMax then LastAlive(opts).(maxFailures := ValueOf(o.value))
            else LastAlive(opts)
  {
    LastOfOneMore(opts, o, k, ServerAliveInterval);
    LastOfOneMore(opts, o, k, ServerAliveCountMax);
  }

  lemma NotedAllOneMore(a: KeepAlive, opts: seq<SshOption>, o: SshOption)
    ensures NotedAll(a, opts + [o]) == Noted(NotedAll(a, opts), o)
  {
    assert (opts + [o])[..|opts|] == opts;
  }

  lemma NotesOneMore(opts: seq<SshOption>, o: SshOption, sofar: KeepAlive)
    requires Clean(o) && sofar == LastAlive(opts)
    ensures Noted(sofar, o) == LastAlive(opts + [o])
  {
    var k := CleanKey(o);
    NotedIsMeant(sofar, o, k);
    LastAliveOneMore(opts, o, k);
  }

  /** The same for keepaliveFromOptions. */
  lemma {:induction false} KeepaliveIsLastWins(opts: seq<SshOption>)
    requires AllClean(opts)
    ensures NotedAll(DEFAULT_KEEPALIVE, opts) == LastAlive(opts)
    decreases |opts|
  {
    if opts != [] {
      var before, o := opts[..|opts| - 1], opts[|opts| - 1];
      CleanParts(opts);
      KeepaliveIsLastWins(before);
      NotedAllOneMore(DEFAULT_KEEPALIVE, before, o);
      NotesOneMore(before, o, NotedAll(DEFAULT_KEEPALIVE, before));
    }
  }

  lemma {:induction false} LastIsClean(opts: seq<SshOption>, k: OptionKey)
    requires AllClean(opts) && LastOf(opts, k).Some?
    ensures ValueFault(k, LastOf(opts, k).value).None?
    decreases |opts|
  {
    var n := |opts| - 1;
    if opts[n].key == Name(k) {
      var j := CleanKey(opts[n]);
      KeysDiffer(j, k);
    } else {
      LastIsClean(opts[..n], k);
    }
  }

  lemma NumberInRange(opts: seq<SshOption>, k: OptionKey, default: int)
    requires AllClean(opts) && RangeOf(k).Some?
    ensures var n := NumberOr(LastOf(opts, k), default);
            if LastOf(opts, k).Some? then RangeOf(k).value.min <= n <= RangeOf(k).value.max else n == default
  {
    if LastOf(opts, k).Some? {
      LastIsClean(opts, k);
      AcceptedNumber(k, LastOf(opts, k).value);
    }
  }

  /** What Go computes from accepted options stays in the validated ranges; keep-alive is on iff a positive interval was last. */
  lemma GoStaysInRange(c: Config, opts: seq<SshOption>)
    requires AllClean(opts)
    ensures var t := SetAll(c, opts).timeout;
            if LastOf(opts, ConnectTimeout).Some? then 1 <= t <= 120 else t == c.timeout
    ensures var k := NotedAll(DEFAULT_KEEPALIVE, opts); 0 <= k.interval <= 600 && 1 <= k.maxFailures <= 100
  {
    AppliedIsLastWins(c, opts);
    KeepaliveIsLastWins(opts);
    NumberInRange(opts, ConnectTimeout, c.timeout);
    NumberInRange(opts, ServerAliveInterval, 0);
    NumberInRange(opts, ServerAliveCountMax, 3);
  }
}
