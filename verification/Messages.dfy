/** The wall messages tell the actors' poweroffs apart. */
module Messages {
  import opened Wrappers
  import opened Calendar
  import opened Coordinator
  import Button
  import Wake
  import Numbers

  lemma TooShortToContain(text: string, part: string)
    requires |text| < |part|
    ensures !Contains(text, part)
  {
  }

  lemma PaddedLength(n: nat, width: nat, most: nat)
    requires 1 <= width <= most && n < Numbers.Power10(most)
    ensures width <= |Numbers.Padded(n, width)| <= most
  {
    Numbers.DecimalLength(n, most);
  }

  /** No wake's poweroff is mistaken for a battery poweroff, whatever time it names. */
  lemma WakeMessageIsNotOurs(t: UpsTime)
    ensures !Contains(Wake.PoweroffMessage(t), SHUTDOWN_MESSAGE)
    ensures Wake.PoweroffMessage(t) != Button.MESSAGE
  {
    assert Numbers.Power10(3) == 1_000;
    assert Numbers.Power10(5) == 100_000;
    PaddedLength(t.year, 4, 5);
    PaddedLength(t.month, 2, 3);
    PaddedLength(t.day, 2, 3);
    PaddedLength(t.hour, 2, 3);
    PaddedLength(t.minute, 2, 3);
    TooShortToContain(Wake.PoweroffMessage(t), SHUTDOWN_MESSAGE);
    var message := Wake.PoweroffMessage(t);
    assert message[|message| - 2] == 'C' && Button.MESSAGE[|Button.MESSAGE| - 2] == 'l';
  }

  lemma ButtonMessageIsNotOurs()
    ensures !Contains(Button.MESSAGE, SHUTDOWN_MESSAGE)
    ensures SHUTDOWN_MESSAGE != Button.MESSAGE && SHUTDOWN_MESSAGE != ""
    ensures Contains(SHUTDOWN_MESSAGE, SHUTDOWN_MESSAGE)
  {
    TooShortToContain(Button.MESSAGE, SHUTDOWN_MESSAGE);
    assert |SHUTDOWN_MESSAGE| != |Button.MESSAGE|;
    assert OccursAt(SHUTDOWN_MESSAGE, SHUTDOWN_MESSAGE, 0);
  }

  /** The coordinator knows its message wherever a broadcast carries it, and takes no reading of none for it. */
  lemma FoundInside(before: string, after: string)
    ensures IsOurs(Some(before + SHUTDOWN_MESSAGE + after)) && !IsOurs(None) && !IsOurs(Some(""))
  {
    ButtonMessageIsNotOurs();
    hide SHUTDOWN_MESSAGE;
    assert OccursAt(before + SHUTDOWN_MESSAGE + after, SHUTDOWN_MESSAGE, |before|);
  }
}
