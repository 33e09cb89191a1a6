/** The way of an option list: from the form or the request, through the server, to the Go readers. */
module OptionHop {
  import opened Common
  import opened SshOptions
  import opened SshOptionLists
  import OptionForm
  import GoOptions

  /** Every reader of the Go side takes from the list the last value of each key, whole. */
  ghost predicate ReadLastWins(options: seq<SshOption>) {
    && (forall c: GoOptions.Config :: GoOptions.SetAll(c, options) == GoOptions.LastWins(c, options))
    && GoOptions.NotedAll(GoOptions.DEFAULT_KEEPALIVE, options) == GoOptions.LastAlive(options)
  }

  lemma CleanIsRead(options: seq<SshOption>)
    requires AllClean(options)
    ensures ReadLastWins(options)
  {
    forall c: GoOptions.Config ensures GoOptions.SetAll(c, options) == GoOptions.LastWins(c, options) {
      GoOptions.AppliedIsLastWins(c, options);
    }
    GoOptions.KeepaliveIsLastWins(options);
  }

  /**
   A list the server has accepted comes back unchanged from a second validation and from the form, and the Go side
   reads every one of its options.
   */
  lemma AcceptedListArrives(entries: seq<Entry>, options: seq<SshOption>)
    requires ValidateAll(Some(entries)) == Accepted(options)
    ensures ValidateAll(Some(AsEntries(options))) == Accepted(options)
    ensures OptionForm.Parse(OptionForm.Print(options)) == Ok(options)
    ensures ReadLastWins(options)
  {
    AcceptedIsClean(entries, options);
    ListIsIdempotent(options);
    OptionForm.ParsePrint(options);
    CleanIsRead(options);
  }

  /** The same for a list that comes out of the form: the server accepts it as it is, and the Go side reads it. */
  lemma FormTextArrives(text: string)
    requires OptionForm.Parse(text).Ok?
    ensures var options := OptionForm.Parse(text).value;
            ValidateAll(Some(AsEntries(options))) == Accepted(options) && ReadLastWins(options)
  {
    OptionForm.ReopenedFormIsStable(text);
    CleanIsRead(OptionForm.Parse(text).value);
  }
}
