/** A submitted list of options: what the loop over its entries answers. */
module SshOptionLists {
  import opened Common
  import opened SshOptions

  /** One element of the submitted array; fields that are not strings are read as empty. */
  datatype Entry = NotARecord | Record(key: Option<string>, value: Option<string>)

  datatype Answer =
    | Accepted(options: seq<SshOption>)
    | NotAnArray
    | BadEntry
    | Refused(refusal: Refusal)
    | UnsupportedKeys(keys: seq<string>)

  /** What one entry amounts to; Listed is a key nobody knows, which is listed rather than refused at once. */
  datatype Verdict = NoRecord | Good(option: SshOption) | Listed(why: Refusal) | Faulty(why: Refusal)

  function OrEmpty(s: Option<string>): string {
    if s.Some? then s.value else ""
  }

  function VerdictOn(r: Result<SshOption, Refusal>): Verdict {
    match r
    case Ok(o) => Good(o)
    case Err(why) => if why.key != "" && Canonical(why.key).None? then Listed(why) else Faulty(why)
  }

  function VerdictOf(e: Entry): Verdict {
    match e
    case NotARecord => NoRecord
    case Record(key, value) => VerdictOn(Validate(OrEmpty(key), OrEmpty(value)))
  }

  function Verdicts(entries: seq<Entry>): seq<Verdict> {
    seq(|entries|, i requires 0 <= i < |entries| => VerdictOf(entries[i]))
  }

  function Goods(vs: seq<Verdict>): seq<SshOption> {
    if vs == [] then []
    else Goods(vs[..|vs| - 1]) + (if vs[|vs| - 1].Good? then [vs[|vs| - 1].option] else [])
  }

  function Unknown(vs: seq<Verdict>): seq<string> {
    if vs == [] then []
    else Unknown(vs[..|vs| - 1]) + (if vs[|vs| - 1].Listed? then [vs[|vs| - 1].why.key] else [])
  }

  /** The loop passes the entry: it is good, or an unknown key not met before. */
  predicate PassesEntry(vs: seq<Verdict>, i: nat)
    requires i < |vs|
  {
    vs[i].Good? || (vs[i].Listed? && vs[i].why.key !in Unknown(vs[..i]))
  }

  /** The answer for the entries from i on, all before it having passed. */
  function AnswerFrom(vs: seq<Verdict>, i: nat): Answer
    requires i <= |vs|
    decreases |vs| - i
  {
    if i == |vs| then
      if Unknown(vs) != [] then UnsupportedKeys(Unknown(vs)) else Accepted(Goods(vs))
    else if PassesEntry(vs, i) then AnswerFrom(vs, i + 1)
    else if vs[i].NoRecord? then BadEntry
    else Refused(vs[i].why)
  }

  function ValidateAll(options: Option<seq<Entry>>): Answer {
    if options.None? then NotAnArray else AnswerFrom(Verdicts(options.value), 0)
  }

  lemma OneMore(vs: seq<Verdict>, i: nat)
    requires i < |vs|
    ensures Goods(vs[..i + 1]) == Goods(vs[..i]) + (if vs[i].Good? then [vs[i].option] else [])
    ensures Unknown(vs[..i + 1]) == Unknown(vs[..i]) + (if vs[i].Listed? then [vs[i].why.key] else [])
  {
    assert vs[..i + 1][..i] == vs[..i];
  }

  /** validateSshOptions. */
  method ValidateSshOptions(options: Option<seq<Entry>>) returns (r: Answer)
    ensures r == ValidateAll(options)
  {
    if options.None? { return NotAnArray; }
    var entries := options.value;
    ghost var vs := Verdicts(entries);
    var unsupported: seq<string> := [];
    var validated: seq<SshOption> := [];
    for i := 0 to |entries|
      invariant unsupported == Unknown(vs[..i]) && validated == Goods(vs[..i])
      invariant AnswerFrom(vs, 0) == AnswerFrom(vs, i)
    {
      OneMore(vs, i);
      if entries[i].NotARecord? { return BadEntry; }
      var result := ValidateSshOption(OrEmpty(entries[i].key), OrEmpty(entries[i].value));
      assert vs[i] == VerdictOn(result);
      if result.Err? {
        if result.error.key == "" || Canonical(result.error.key).Some? || result.error.key in unsupported {
          return Refused(result.error);
        }
        unsupported := unsupported + [result.error.key];
        continue;
      }
      validated := validated + [result.value];
    }
    assert vs[..|entries|] == vs;
    if |unsupported| > 0 { return UnsupportedKeys(unsupported); }
    r := Accepted(validated);
  }

  // ---- what the answers mean ----

  ghost predicate AllPass(vs: seq<Verdict>) {
    forall i :: 0 <= i < |vs| ==> PassesEntry(vs, i)
  }

  ghost predicate AllGood(vs: seq<Verdict>) {
    forall i :: 0 <= i < |vs| ==> vs[i].Good?
  }

  lemma {:induction false} PassingAnswer(vs: seq<Verdict>, i: nat)
    requires i <= |vs|
    ensures AnswerFrom(vs, i).Accepted? || AnswerFrom(vs, i).UnsupportedKeys?
            <==> forall j :: i <= j < |vs| ==> PassesEntry(vs, j)
    ensures AnswerFrom(vs, i).Accepted? ==> Unknown(vs) == [] && AnswerFrom(vs, i).options == Goods(vs)
    ensures AnswerFrom(vs, i).UnsupportedKeys? ==> Unknown(vs) != [] && AnswerFrom(vs, i).keys == Unknown(vs)
    decreases |vs| - i
  {
    if i < |vs| {
      PassingAnswer(vs, i + 1);
    }
  }

  lemma {:induction false} AllGoods(vs: seq<Verdict>)
    requires AllGood(vs)
    ensures Unknown(vs) == [] && |Goods(vs)| == |vs|
    ensures forall i :: 0 <= i < |vs| ==> Goods(vs)[i] == vs[i].option
    decreases |vs|
  {
    if vs != [] {
      AllGoods(vs[..|vs| - 1]);
    }
  }

  lemma {:induction false} UnknownHolds(vs: seq<Verdict>, i: nat)
    requires i < |vs| && vs[i].Listed?
    ensures vs[i].why.key in Unknown(vs)
    decreases |vs|
  {
    if i < |vs| - 1 { UnknownHolds(vs[..|vs| - 1], i); }
  }

  lemma AcceptsGood(vs: seq<Verdict>)
    ensures AnswerFrom(vs, 0).Accepted? <==> AllGood(vs)
    ensures AnswerFrom(vs, 0).Accepted? ==> AnswerFrom(vs, 0).options == Goods(vs)
  {
    PassingAnswer(vs, 0);
    if AllGood(vs) {
      AllGoods(vs);
    } else if AnswerFrom(vs, 0).Accepted? {
      var i :| 0 <= i < |vs| && !vs[i].Good?;
      assert PassesEntry(vs, i);
      UnknownHolds(vs, i);
    }
  }

  /** A list is accepted exactly when every entry is, and then each option stands where its entry stood. */
  lemma AcceptedExactly(entries: seq<Entry>, options: seq<SshOption>)
    ensures ValidateAll(Some(entries)) == Accepted(options)
            <==> |options| == |entries| && forall i :: 0 <= i < |entries| ==> VerdictOf(entries[i]) == Good(options[i])
  {
    var vs := Verdicts(entries);
    AcceptsGood(vs);
    if AllGood(vs) {
      AllGoods(vs);
      if |options| == |entries| && forall i :: 0 <= i < |entries| ==> VerdictOf(entries[i]) == Good(options[i]) {
        assert forall i :: 0 <= i < |entries| ==> Goods(vs)[i] == options[i];
        assert Goods(vs) == options;
      }
    }
  }

  lemma {:induction false} UnknownIsDistinct(vs: seq<Verdict>)
    requires AllPass(vs)
    ensures forall i, j :: 0 <= i < j < |Unknown(vs)| ==> Unknown(vs)[i] != Unknown(vs)[j]
    ensures forall key :: key in Unknown(vs) <==> exists i :: 0 <= i < |vs| && vs[i].Listed? && vs[i].why.key == key
    decreases |vs|
  {
    if vs != [] {
      var n := |vs| - 1;
      forall i | 0 <= i < n ensures PassesEntry(vs[..n], i) {
        assert PassesEntry(vs, i);
        assert vs[..n][..i] == vs[..i];
      }
      UnknownIsDistinct(vs[..n]);
      assert PassesEntry(vs, n);
      assert forall i :: 0 <= i < n ==> vs[..n][i] == vs[i];
      forall key | key in Unknown(vs)
        ensures exists i :: 0 <= i < |vs| && vs[i].Listed? && vs[i].why.key == key
      {
        if key in Unknown(vs[..n]) {
          var i :| 0 <= i < n && vs[..n][i].Listed? && vs[..n][i].why.key == key;
          assert vs[i].Listed?;
        } else {
          assert vs[n].Listed?;
        }
      }
    }
  }

  /**
   Unknown keys are listed only when nothing else is wrong: each once, and no key that was met twice,
   for a repeated unknown key is refused on its own.
   */
  lemma UnsupportedExactly(entries: seq<Entry>)
    ensures var vs := Verdicts(entries);
            ValidateAll(Some(entries)).UnsupportedKeys? <==> AllPass(vs) && !AllGood(vs)
    ensures var r, vs := ValidateAll(Some(entries)), Verdicts(entries);
            r.UnsupportedKeys? ==>
              && (forall i, j :: 0 <= i < j < |r.keys| ==> r.keys[i] != r.keys[j])
              && (forall key :: key in r.keys <==> exists i :: 0 <= i < |vs| && vs[i].Listed? && vs[i].why.key == key)
  {
    var vs := Verdicts(entries);
    PassingAnswer(vs, 0);
    AcceptsGood(vs);
    if AllPass(vs) { UnknownIsDistinct(vs); }
  }

  /** Otherwise the first entry that does not pass decides the answer, whatever follows it. */
  lemma {:induction false} FirstFaultDecides(vs: seq<Verdict>, i: nat, fault: nat)
    requires i <= fault < |vs| && !PassesEntry(vs, fault)
    requires forall j :: i <= j < fault ==> PassesEntry(vs, j)
    ensures AnswerFrom(vs, i) == if vs[fault].NoRecord? then BadEntry else Refused(vs[fault].why)
    decreases fault - i
  {
    if i < fault { FirstFaultDecides(vs, i + 1, fault); }
  }

  // ---- validating twice ----

  function AsEntries(options: seq<SshOption>): seq<Entry> {
    seq(|options|, i requires 0 <= i < |options| => Record(Some(options[i].key), Some(options[i].value)))
  }

  ghost predicate AllClean(options: seq<SshOption>) {
    forall i :: 0 <= i < |options| ==> Clean(options[i])
  }

  /** An accepted list is accepted again and comes back as it is; nothing else comes back as it is. */
  lemma ListIsIdempotent(options: seq<SshOption>)
    ensures ValidateAll(Some(AsEntries(options))) == Accepted(options) <==> AllClean(options)
  {
    AcceptedExactly(AsEntries(options), options);
    forall i | 0 <= i < |options|
      ensures Clean(options[i]) <==> VerdictOf(AsEntries(options)[i]) == Good(options[i])
    {
      CleanIsFixed(options[i]);
    }
  }

  lemma AcceptedIsClean(entries: seq<Entry>, options: seq<SshOption>)
    requires ValidateAll(Some(entries)) == Accepted(options)
    ensures AllClean(options)
  {
    AcceptedExactly(entries, options);
    forall i | 0 <= i < |options| ensures Clean(options[i]) {
      assert VerdictOf(entries[i]) == Good(options[i]);
      ValidateIsIdempotent(OrEmpty(entries[i].key), OrEmpty(entries[i].value));
    }
  }
}
