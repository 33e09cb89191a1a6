/** What the Go readers make of keys, numbers and lists that have not been through validation. */
module GoRules {
  import opened Common
  import opened Text
  import opened OptionText
  import opened SshOptions
  import opened OptionRules
  import opened GoOptions

  predicate AllGoSpace(s: string) {
    forall c :: c in s ==> GoSpace(c)
  }

  /** The same as for JavaScript, with the next-line character and without the byte order mark. */
  lemma GoSpacesAre(c: char)
    ensures GoSpace(c) <==> c as int == 133 || (IsSpace(c) && c as int != 65279)
  {
  }

  predicate GoTrimmed(s: string) {
    s != "" ==> !GoSpace(s[0]) && !GoSpace(s[|s| - 1])
  }

  lemma {:induction false} TrimLeftDrops(a: string, s: string)
    requires AllGoSpace(a)
    ensures GoTrimLeft(a + s) == GoTrimLeft(s)
    decreases |a|
  {
    if a == "" {
      assert a + s == s;
    } else {
      assert a[0] in a && (a + s)[1..] == a[1..] + s;
      TrimLeftDrops(a[1..], s);
    }
  }

  lemma {:induction false} TrimRightDrops(s: string, b: string)
    requires AllGoSpace(b)
    ensures GoTrimRight(s + b) == GoTrimRight(s)
    decreases |b|
  {
    if b == "" {
      assert s + b == s;
    } else {
      var n := |b| - 1;
      assert b[n] in b && (s + b)[..|s + b| - 1] == s + b[..n];
      TrimRightDrops(s, b[..n]);
    }
  }

  /** White space around a text goes, and nothing else. */
  lemma GoTrimDrops(a: string, s: string, b: string)
    requires AllGoSpace(a) && AllGoSpace(b) && GoTrimmed(s)
    ensures GoTrim(a + s + b) == s
  {
    assert a + s + b == a + (s + b);
    TrimLeftDrops(a, s + b);
    if s == "" {
      assert s + b == b + "";
      TrimLeftDrops(b, "");
    } else {
      assert GoTrimLeft(s + b) == s + b;
      TrimRightDrops(s, b);
    }
  }

  // ---- keys ----

  /** Besides the spellings the server knows, the dotted capital I counts as an I. */
  predicate GoSameLetter(c: char, d: char) {
    SameLetter(c, d) || (c == '\U{0130}' && (d == 'i' || d == 'I'))
  }

  predicate GoRespells(s: string, name: string) {
    |s| == |name| && forall i :: 0 <= i < |s| ==> GoSameLetter(s[i], name[i])
  }

  function GoLowerChar(c: char): char {
    if c == '\U{0130}' then 'i' else LowerChar(c)
  }

  lemma GoLettersAgree(c: char, d: char)
    requires 'A' <= d <= 'Z' || 'a' <= d <= 'z'
    ensures GoLowerChar(c) == LowerChar(d) <==> GoSameLetter(c, d)
  {
    LettersAgree(c, d);
  }

  /** A key falls into the case of an option exactly when, without spaces around it, it is its name in any letter case. */
  lemma KeysExactly(o: SshOption, k: OptionKey)
    ensures GoKey(o) == Some(k) <==> GoRespells(GoTrim(o.key), Name(k))
  {
    var s, name := GoTrim(o.key), Name(k);
    NameLowers(k);
    LowerNamesDiffer(k);
    assert GoKey(o) == Some(k) <==> GoLower(s) == Lower(name);
    forall i | 0 <= i < |name| ensures 'A' <= name[i] <= 'Z' || 'a' <= name[i] <= 'z' {
      NameLetters(k);
      assert name[i] in name;
    }
    if GoRespells(s, name) {
      forall i | 0 <= i < |s| ensures GoLower(s)[i] == Lower(name)[i] { GoLettersAgree(s[i], name[i]); }
      assert GoLower(s) == Lower(name);
    } else if GoLower(s) == Lower(name) {
      assert |s| == |GoLower(s)| == |name|;
      forall i | 0 <= i < |s| ensures GoSameLetter(s[i], name[i]) {
        assert GoLower(s)[i] == Lower(name)[i];
        GoLettersAgree(s[i], name[i]);
      }
      assert false;
    }
  }

  // ---- numbers ----

  /** A number of 64 bits. */
  function Fits64(n: int): Option<int> {
    if -0x8000_0000_0000_0000 <= n <= 0x7FFF_FFFF_FFFF_FFFF then Some(n) else None
  }

  lemma UnsignedDigits(d: string)
    requires d != "" && AllDigits(d)
    ensures Atoi(d) == Fits64(ValueOf(d))
  {
    assert d[0] in d;
  }

  lemma SignedDigits(sign: char, d: string)
    requires d != "" && AllDigits(d) && (sign == '+' || sign == '-')
    ensures Atoi([sign] + d) == Fits64(if sign == '-' then 0 - ValueOf(d) else ValueOf(d))
  {
    assert ([sign] + d)[1..] == d;
  }

  /** The numerals of all 64-bit numbers, with a sign or without, are read as those numbers; larger ones are not read. */
  lemma AtoiNumerals(n: nat)
    ensures Atoi(Decimal(n)) == Fits64(n)
    ensures Atoi(['+'] + Decimal(n)) == Fits64(n)
    ensures Atoi(['-'] + Decimal(n)) == Fits64(0 - n)
  {
    DecimalDenotes(n);
    UnsignedDigits(Decimal(n));
    SignedDigits('+', Decimal(n));
    SignedDigits('-', Decimal(n));
  }

  /** Nothing but a sign and digits is a number. */
  lemma AtoiOnlyNumerals(s: string)
    requires Atoi(s).Some?
    ensures s != ""
    ensures var digits := if s[0] == '-' || s[0] == '+' then s[1..] else s;
            digits != "" && forall c :: c in digits ==> '0' <= c <= '9'
  {
  }

  // ---- what an option does ----

  /** Unknown keys and unreadable numbers are passed over; a time-out or a failure count must be positive. */
  lemma PassedOver(c: Config, a: KeepAlive, o: SshOption)
    ensures GoKey(o) == None || GoKey(o) == Some(ProxyCommand) ==> Set(c, o) == c && Noted(a, o) == a
    ensures GoKey(o) == Some(ConnectTimeout) ==>
              Set(c, o) == (match Atoi(GoTrim(o.value)) case Some(n) => if n > 0 then c.(timeout := n) else c case None => c)
    ensures GoKey(o) == Some(ServerAliveInterval) ==>
              Noted(a, o) == (match Atoi(GoTrim(o.value)) case Some(n) => a.(interval := n) case None => a)
    ensures GoKey(o) == Some(ServerAliveCountMax) ==>
              Noted(a, o) == (match Atoi(GoTrim(o.value)) case Some(n) => if n > 0 then a.(maxFailures := n) else a case None => a)
  {
  }

  // ---- lists ----

  /** One more part of a list: without the spaces around it, and left out when nothing remains. */
  lemma OneMorePart(raw: seq<string>, a: string, t: string, b: string)
    requires AllGoSpace(a) && AllGoSpace(b) && GoTrimmed(t)
    ensures KeptTokens(raw + [a + t + b]) == if t == "" then KeptTokens(raw) else KeptTokens(raw) + [t]
  {
    GoTrimDrops(a, t, b);
    assert (raw + [a + t + b])[..|raw|] == raw;
  }

  datatype Part = Part(before: string, name: string, after: string)

  predicate PartOk(p: Part) {
    AllGoSpace(p.before) && AllGoSpace(p.after) && GoTrimmed(p.name) && ',' !in p.before + p.name + p.after
  }

  function Texts(parts: seq<Part>): seq<string> {
    seq(|parts|, i requires 0 <= i < |parts| => parts[i].before + parts[i].name + parts[i].after)
  }

  function NamesOf(parts: seq<Part>): seq<string> {
    if parts == [] then []
    else
      var last := parts[|parts| - 1].name;
      NamesOf(parts[..|parts| - 1]) + (if last == "" then [] else [last])
  }

  lemma {:induction false} PartsRead(parts: seq<Part>)
    requires forall p :: p in parts ==> PartOk(p)
    ensures KeptTokens(Texts(parts)) == NamesOf(parts)
    decreases |parts|
  {
    if parts != [] {
      var n := |parts| - 1;
      var p := parts[n];
      assert PartOk(p);
      PartsRead(parts[..n]);
      assert Texts(parts) == Texts(parts[..n]) + [p.before + p.name + p.after];
      OneMorePart(Texts(parts[..n]), p.before, p.name, p.after);
    }
  }

  /** A list is read as its names in order, whatever spaces stand around them and however many parts are empty. */
  lemma ListRead(parts: seq<Part>)
    requires parts != [] && forall p :: p in parts ==> PartOk(p)
    ensures KeptTokens(Split(Join(Texts(parts), ','), ',')) == NamesOf(parts)
  {
    forall t | t in Texts(parts) ensures ',' !in t {
      var i :| 0 <= i < |parts| && Texts(parts)[i] == t;
      assert PartOk(parts[i]);
    }
    SplitJoin(Texts(parts), ',');
    PartsRead(parts);
  }
}
