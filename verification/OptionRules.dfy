/** What an option may look like: spaces, quotes and letter case around it, the ranges of numbers, the names in lists. */
module OptionRules {
  import opened Common
  import opened Text
  import opened OptionText
  import opened SshOptions
  import opened SshOptionLists
  import OptionForm

  // ---- quotes ----

  predicate IsQuote(c: char) {
    c == '"' || c == '\''
  }

  /** A matching pair of quotes goes, together with the white space outside it; what it encloses stays as it is. */
  lemma UnquoteRemoves(a: string, q: char, body: string, b: string)
    requires AllSpace(a) && AllSpace(b) && IsQuote(q)
    ensures Unquote(a + ([q] + body + [q]) + b) == body
  {
    var t := [q] + body + [q];
    assert t[0] == q && t[|t| - 1] == q;
    TrimDrops(a, t, b);
    assert t[1..|t| - 1] == body;
  }

  predicate Enclosed(s: string) {
    |s| >= 2 && IsQuote(s[0]) && s[0] == s[|s| - 1]
  }

  /** Any other text loses only the white space around it. */
  lemma UnquoteKeeps(a: string, s: string, b: string)
    requires AllSpace(a) && AllSpace(b) && Trimmed(s) && !Enclosed(s)
    ensures Unquote(a + s + b) == s
  {
    TrimDrops(a, s, b);
  }

  // ---- letter case ----

  /** The two letters differ in case only; the Kelvin sign counts as a K. */
  predicate SameLetter(c: char, d: char) {
    || c == d
    || ('A' <= d <= 'Z' && c as int == d as int + 32) || ('a' <= d <= 'z' && c as int == d as int - 32)
    || (c == '\U{212A}' && (d == 'k' || d == 'K'))
  }

  predicate Respells(s: string, name: string) {
    |s| == |name| && forall i :: 0 <= i < |s| ==> SameLetter(s[i], name[i])
  }

  lemma LettersAgree(c: char, d: char)
    requires 'A' <= d <= 'Z' || 'a' <= d <= 'z'
    ensures LowerChar(c) == LowerChar(d) <==> SameLetter(c, d)
  {
  }

  /** A spelling stands for a key exactly when it is the key's name in any letter case. */
  lemma SpellingsExactly(s: string, k: OptionKey)
    ensures Canonical(s) == Some(k) <==> Respells(s, Name(k))
  {
    var name := Name(k);
    NameLowers(k);
    LowerDecides(s, k);
    forall i | 0 <= i < |name| ensures 'A' <= name[i] <= 'Z' || 'a' <= name[i] <= 'z' {
      NameLetters(k);
      assert name[i] in name;
    }
    if Respells(s, name) {
      forall i | 0 <= i < |s| ensures Lower(s)[i] == Lower(name)[i] { LettersAgree(s[i], name[i]); }
      assert Lower(s) == Lower(name);
    } else if Lower(s) == Lower(name) {
      assert |s| == |Lower(s)| == |name|;
      forall i | 0 <= i < |s| ensures SameLetter(s[i], name[i]) {
        assert Lower(s)[i] == Lower(name)[i];
        LettersAgree(s[i], name[i]);
      }
      assert false;
    }
  }

  lemma LowerDecides(s: string, k: OptionKey)
    ensures Canonical(s) == Some(k) <==> Lower(s) == LowerName(k)
  {
    LowerNamesDiffer(k);
  }

  // ---- which options are accepted, and how the others are refused ----

  ghost predicate AcceptedAs(key: string, value: string, o: SshOption, k: OptionKey) {
    && k != ProxyCommand && Respells(Trim(key), Name(k))
    && o == SshOption(Name(k), Unquote(value)) && ValueFault(k, o.value) == None
  }

  /**
   An option is accepted exactly when its key, without the spaces around it, is in any letter case the name of an option
   other than ProxyCommand, and its value, without spaces and quotes around it, has no fault; it is kept under that name.
   */
  lemma AcceptedExactly(key: string, value: string, o: SshOption)
    ensures Validate(key, value) == Ok(o) <==> exists k :: AcceptedAs(key, value, o, k)
  {
    var raw := Trim(key);
    forall k ensures Canonical(raw) == Some(k) <==> Respells(raw, Name(k)) { SpellingsExactly(raw, k); }
    if Validate(key, value) == Ok(o) {
      assert AcceptedAs(key, value, o, Canonical(raw).value);
    }
  }

  /** A key that is no option's name is named in the refusal; ProxyCommand is refused as an option in any letter case. */
  lemma UnknownKeysExactly(key: string, value: string)
    ensures Validate(key, value) == Err(Refusal(Trim(key), Unsupported)) <==> forall k :: !Respells(Trim(key), Name(k))
    ensures Validate(key, value) == Err(Refusal(Trim(key), ProxyAsOption)) <==> Respells(Trim(key), Name(ProxyCommand))
  {
    var raw := Trim(key);
    forall k ensures Canonical(raw) == Some(k) <==> Respells(raw, Name(k)) { SpellingsExactly(raw, k); }
    if Canonical(raw).Some? { assert Respells(raw, Name(Canonical(raw).value)); }
  }

  // ---- numbers ----

  predicate InRange(k: OptionKey, n: int) {
    match k
    case ServerAliveInterval => 0 <= n <= 600
    case ServerAliveCountMax => 1 <= n <= 100
    case ConnectTimeout => 1 <= n <= 120
    case _ => false
  }

  /** A number is refused as empty, as no number, or as out of its range, and otherwise accepted. */
  lemma NumberFaults(k: OptionKey, v: string)
    requires k == ServerAliveInterval || k == ServerAliveCountMax || k == ConnectTimeout
    ensures ValueFault(k, v) ==
            if v == "" then Some(EmptyValue)
            else if exists c :: c in v && !('0' <= c <= '9') then Some(NotANumber)
            else if !InRange(k, ValueOf(v)) then Some(OutOfRange)
            else None
  {
  }

  /** The numeral of a number, with any zeros before it, is accepted exactly in the range. */
  lemma {:induction false} NumeralsExactly(k: OptionKey, n: nat, zeros: nat)
    requires k == ServerAliveInterval || k == ServerAliveCountMax || k == ConnectTimeout
    ensures ValueFault(k, Zeros(zeros) + Decimal(n)) == None <==> InRange(k, n)
  {
    DecimalDenotes(n);
    ZerosDenote(zeros, Decimal(n));
    NumberFaults(k, Zeros(zeros) + Decimal(n));
  }

  function Zeros(n: nat): string {
    seq(n, _ => '0')
  }

  lemma {:induction false} ZerosDenote(n: nat, digits: string)
    requires AllDigits(digits)
    ensures AllDigits(Zeros(n) + digits) && ValueOf(Zeros(n) + digits) == ValueOf(digits)
    decreases |digits| + n
  {
    var s := Zeros(n) + digits;
    if digits != "" {
      var m := |digits| - 1;
      assert digits[m] in digits && s[..|s| - 1] == Zeros(n) + digits[..m];
      ZerosDenote(n, digits[..m]);
    } else if n > 0 {
      assert s[..|s| - 1] == Zeros(n - 1) + digits;
      ZerosDenote(n - 1, digits);
    }
  }

  // ---- lists ----

  /** A name of an algorithm: letters, digits and `@._+-`, at least one. */
  predicate IsName(s: string) {
    s != "" && forall c :: c in s ==>
      'A' <= c <= 'Z' || 'a' <= c <= 'z' || '0' <= c <= '9' || c == '@' || c == '.' || c == '_' || c == '+' || c == '-'
  }

  lemma NamesAreTokens(s: string)
    ensures IsToken(s) <==> IsName(s)
  {
  }

  ghost predicate AllNames(names: seq<string>) {
    forall n :: n in names ==> IsName(n)
  }

  lemma NamesHaveNoComma(names: seq<string>)
    requires AllNames(names)
    ensures NoneHas(names, ',')
  {
  }

  lemma NamesAccepted(k: OptionKey, names: seq<string>)
    requires IsListKey(k) && names != [] && AllNames(names)
    ensures ValueFault(k, Join(names, ',')) == None
  {
    NamesHaveNoComma(names);
    SplitJoin(names, ',');
    assert IsName(names[0]);
    forall t | t in names ensures IsToken(t) { NamesAreTokens(t); }
  }

  lemma AcceptedNames(k: OptionKey, v: string)
    requires IsListKey(k) && ValueFault(k, v) == None
    ensures AllNames(Split(v, ',')) && v == Join(Split(v, ','), ',')
  {
    JoinSplit(v, ',');
    forall t | t in Split(v, ',') ensures IsName(t) { NamesAreTokens(t); }
  }

  /** A list is accepted exactly when it is one or more names with a comma between any two. */
  lemma ListsExactly(k: OptionKey, v: string)
    requires k == Ciphers || k == MACs || k == KexAlgorithms || k == HostKeyAlgorithms
    ensures ValueFault(k, v) == None <==> exists names: seq<string> :: names != [] && AllNames(names) && v == Join(names, ',')
  {
    if ValueFault(k, v) == None { AcceptedNames(k, v); }
    if names: seq<string> :| names != [] && AllNames(names) && v == Join(names, ',') { NamesAccepted(k, names); }
  }

  // ---- entries and lines ----

  /** What an entry of a submitted list amounts to: an option, an unknown key to be listed, or a fault of its own. */
  lemma EntriesExactly(key: string, value: string)
    ensures var v := VerdictOf(Record(Some(key), Some(value)));
            && (forall o :: v == Good(o) <==> Validate(key, value) == Ok(o))
            && (v == Listed(Refusal(Trim(key), Unsupported)) <==> Trim(key) != "" && forall k :: !Respells(Trim(key), Name(k)))
            && (Respells(Trim(key), Name(ProxyCommand)) ==> v == Faulty(Refusal(Trim(key), ProxyAsOption)))
  {
    var raw := Trim(key);
    forall k ensures Canonical(raw) == Some(k) <==> Respells(raw, Name(k)) { SpellingsExactly(raw, k); }
    if Canonical(raw).Some? { assert Respells(raw, Name(Canonical(raw).value)); }
  }

  /** A line of the form is its key up to the first equals sign and its value behind it, spaces around the line aside. */
  lemma LinesExactly(a: string, key: string, value: string, b: string)
    requires AllSpace(a) && AllSpace(b) && key != "" && '=' !in key && Trimmed(key + ['='] + value)
    ensures OptionForm.MeaningOf(a + (key + ['='] + value) + b) == OptionForm.OptionMeaning(key, value)
  {
    var line := key + ['='] + value;
    TrimDrops(a, line, b);
    IndexAfter(key, value, '=');
    assert line[..|key|] == key && line[|key| + 1..] == value;
  }

  /** A line of spaces means nothing; one that has no equals sign, or starts with it, has no key. */
  lemma LinesWithoutKey(a: string, line: string, b: string)
    requires AllSpace(a) && AllSpace(b) && Trimmed(line)
    ensures OptionForm.MeaningOf(a + line + b) == OptionForm.Blank <==> line == ""
    ensures OptionForm.MeaningOf(a + line + b) == OptionForm.NoKey <==> line != "" && (line[0] == '=' || '=' !in line)
  {
    TrimDrops(a, line, b);
    var eq := IndexOf(line, '=');
    if eq < |line| { assert line[eq] in line; } else { assert forall j :: 0 <= j < |line| ==> line[j] != '='; }
  }
}
