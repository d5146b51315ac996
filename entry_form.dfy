/** The add-game form's `validate`: a game may be submitted only when at
    least two players have a score and the scores sum to zero (within the
    0.01 tolerance the form allows). */
module EntryForm {
  import opened Games
  import opened Sequences

  /** The two messages `validate` can return instead of the empty string. */
  datatype EntryError =
    | TooFewScores         // fewer than two players have a score
    | SumNotZero(sum: int) // the scores do not cancel out; carries their sum

  /** Scores may be off zero by at most this much. */
  const Tolerance: real := 0.01

  function IsFilled(values: PerPlayer<FormField>): Player -> bool {
    (p: Player) => values.Of(p).Entered?
  }

  /** The players whose field is not empty, in player order. */
  function Filled(values: PerPlayer<FormField>): seq<Player> {
    Filter(Players, IsFilled(values))
  }

  /** A player is listed as filled exactly when their field is not empty. */
  lemma FilledMembers(values: PerPlayer<FormField>)
    ensures forall p :: p in Filled(values) <==> values.Of(p).Entered?
  {
    FilterMembers(Players, IsFilled(values));
    forall p ensures p in Players {
      assert Players[IndexOf(p)] == p;
    }
  }

  /** The sum of the entered scores of the listed players. */
  function SumOf(values: PerPlayer<FormField>, ps: seq<Player>): int {
    if ps == [] then 0
    else EnteredValue(values.Of(ps[0])) + SumOf(values, ps[1..])
  }

  /** The form check run before submitting: None means the entry may be sent. */
  function Validate(values: PerPlayer<FormField>): Option<EntryError> {
    var filled := Filled(values);
    if |filled| < 2 then Some(TooFewScores)
    else
      var sum := SumOf(values, filled);
      if Abs(sum) as real > Tolerance then Some(SumNotZero(sum)) else None
  }

  /** The number of filled players and the sum of what they entered. */
  function FilledCount(values: PerPlayer<FormField>): nat {
    (if values.matt.Entered? then 1 else 0) + (if values.seth.Entered? then 1 else 0)
    + (if values.mack.Entered? then 1 else 0) + (if values.arnav.Entered? then 1 else 0)
    + (if values.henry.Entered? then 1 else 0)
  }

  function EnteredValue(f: FormField): int {
    match f
    case Entered(v) => v
    case Blank => 0
  }

  function EnteredSum(values: PerPlayer<FormField>): int {
    EnteredValue(values.matt) + EnteredValue(values.seth) + EnteredValue(values.mack)
    + EnteredValue(values.arnav) + EnteredValue(values.henry)
  }

  /** The filtered player list has one entry per filled field, and its reduce
      is the sum of every entered score. */
  lemma FilledMatchesFields(values: PerPlayer<FormField>)
    ensures |Filled(values)| == FilledCount(values)
    ensures SumOf(values, Filled(values)) == EnteredSum(values)
  {
    SumSkipsBlanks(values, Players);
    assert Players[1..] == [Seth, Mack, Arnav, Henry];
    assert Players[2..] == [Mack, Arnav, Henry];
    assert Players[3..] == [Arnav, Henry];
    assert Players[4..] == [Henry];
    assert Players[5..] == [];
    assert SumOf(values, Players[4..]) == EnteredValue(values.henry);
    assert SumOf(values, Players[3..]) == EnteredValue(values.arnav) + SumOf(values, Players[4..]);
    assert SumOf(values, Players[2..]) == EnteredValue(values.mack) + SumOf(values, Players[3..]);
    assert SumOf(values, Players[1..]) == EnteredValue(values.seth) + SumOf(values, Players[2..]);
  }

  /** Leaving out the blank fields does not change the sum. */
  lemma {:induction false} SumSkipsBlanks(values: PerPlayer<FormField>, ps: seq<Player>)
    ensures SumOf(values, Filter(ps, IsFilled(values))) == SumOf(values, ps)
  {
    if ps != [] {
      SumSkipsBlanks(values, ps[1..]);
    }
  }

  /** `validate` accepts exactly the entries with at least two scores summing
      to zero; with integer scores the 0.01 tolerance admits only zero. */
  lemma ValidateAcceptsExactly(values: PerPlayer<FormField>)
    ensures Validate(values) == None <==> FilledCount(values) >= 2 && EnteredSum(values) == 0
    ensures Validate(values) == Some(TooFewScores) <==> FilledCount(values) < 2
    ensures Validate(values).Some? && Validate(values).value.SumNotZero? ==>
      FilledCount(values) >= 2 && Validate(values).value.sum == EnteredSum(values) != 0
  {
    FilledMatchesFields(values);
  }
}
