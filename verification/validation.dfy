/**
 * The decoded record as the injection code sees it, the destination save's
 * capability limits, and the ordered compatibility checks a transferred record
 * must pass before it may be written into a box or party slot.
 */
module Validation {
  import opened Wrappers
  import opened Generations

  /**
   * The logical fields of a decoded record that the injection code reads.
   * Field accessors return 16-bit values; every comparison below is an
   * unsigned comparison against a limit, so unbounded naturals behave the same.
   */
  datatype Record = Record(
    generation: Generation,
    species: nat,
    form: nat,
    ability: nat,
    heldItem: nat,
    ball: nat,
    moves: seq<nat>,
    relearnMoves: Option<seq<nat>>)

  /** Only the SIX and SEVEN codecs are inspected for relearn moves. */
  predicate RelearnChecked(g: Generation) {
    g == Six || g == Seven
  }

  /**
   * Every record has four move slots; a record whose generation is SIX or
   * SEVEN is a PK6 or PK7 object and so also has four relearn moves.
   */
  predicate WellFormed(r: Record) {
    && |r.moves| == 4
    && (r.relearnMoves.Some? ==> |r.relearnMoves.value| == 4)
    && (RelearnChecked(r.generation) ==> r.relearnMoves.Some?)
  }

  type Pkm = r: Record | WellFormed(r)
    witness Record(Four, 0, 0, 0, 0, 0, [0, 0, 0, 0], None)

  /** The limits the destination save reports; formCount is per species. */
  datatype Caps = Caps(
    maxSpecies: nat,
    maxMove: nat,
    maxAbility: nat,
    maxItem: nat,
    maxBall: nat,
    formCount: nat -> nat)

  /** The six checks, in the order the injection code runs them. */
  datatype Field = Species | Form | Ability | Item | Ball | Move

  datatype Verdict = Accepted | Rejected(field: Field)

  /** Position of a check in the if/else-if chain. */
  function Rank(f: Field): (r: nat) {
    match f
    case Species => 0
    case Form => 1
    case Ability => 2
    case Item => 3
    case Ball => 4
    case Move => 5
  }

  /** First line of the warning shown on any rejection (the key is spelled this way). */
  const TransferWarning: string := "STORAGE_BAD_TRANFER"

  /** Second line of the warning: names the check that failed. */
  function WarningKey(f: Field): (key: string)
    ensures key != TransferWarning
  {
    match f
    case Species => "STORAGE_BAD_SPECIES"
    case Form => "STORAGE_BAD_FORM"
    case Ability => "STORAGE_BAD_ABILITY"
    case Item => "STORAGE_BAD_ITEM"
    case Ball => "STORAGE_BAD_BALL"
    case Move => "STORAGE_BAD_MOVE"
  }

  /** Each failing check shows its own second warning line. */
  lemma WarningKeyInjective(f: Field, g: Field)
    ensures WarningKey(f) == WarningKey(g) ==> f == g
  {
  }

  /** Move slot i is out of range: its move, or for SIX/SEVEN its relearn move. */
  predicate MoveSlotBad(p: Pkm, maxMove: nat, i: nat)
    requires i < 4
  {
    || p.moves[i] > maxMove
    || (RelearnChecked(p.generation) && p.relearnMoves.value[i] > maxMove)
  }

  /** The value the moveBad loop computes, stated without the loop. */
  predicate MoveBad(p: Pkm, maxMove: nat) {
    exists i :: 0 <= i < 4 && MoveSlotBad(p, maxMove, i)
  }

  /**
   * The moveBad loop: scans the four slots in order and stops at the first
   * move (or SIX/SEVEN relearn move) above maxMove.
   */
  method ComputeMoveBad(p: Pkm, maxMove: nat) returns (moveBad: bool)
    ensures moveBad <==> MoveBad(p, maxMove)
  {
    moveBad := false;
    for i := 0 to 4
      invariant !moveBad
      invariant forall k :: 0 <= k < i ==> !MoveSlotBad(p, maxMove, k)
    {
      if p.moves[i] > maxMove {
        moveBad := true;
        assert MoveSlotBad(p, maxMove, i);
        break;
      }
      if p.generation == Six {
        if p.relearnMoves.value[i] > maxMove {
          moveBad := true;
          assert MoveSlotBad(p, maxMove, i);
          break;
        }
      } else if p.generation == Seven {
        if p.relearnMoves.value[i] > maxMove {
          moveBad := true;
          assert MoveSlotBad(p, maxMove, i);
          break;
        }
      }
    }
  }

  /**
   * The if/else-if chain run after the moveBad loop: species, form, ability,
   * item, ball, then the precomputed move flag.
   */
  function FirstFailure(p: Pkm, caps: Caps, moveBad: bool): (v: Verdict)
    ensures v.Rejected? && v.field != Move ==> Fails(p, caps, v.field)
    ensures v == Rejected(Move) ==> moveBad
    ensures v == Accepted ==> !moveBad
  {
    if p.species > caps.maxSpecies then Rejected(Species)
    else if p.form > caps.formCount(p.species) then Rejected(Form)
    else if p.ability > caps.maxAbility then Rejected(Ability)
    else if p.heldItem > caps.maxItem then Rejected(Item)
    else if p.ball > caps.maxBall then Rejected(Ball)
    else if moveBad then Rejected(Move)
    else Accepted
  }

  /** Whether the single check f fails for p, independently of the others. */
  predicate Fails(p: Pkm, caps: Caps, f: Field) {
    match f
    case Species => p.species > caps.maxSpecies
    case Form => p.form > caps.formCount(p.species)
    case Ability => p.ability > caps.maxAbility
    case Item => p.heldItem > caps.maxItem
    case Ball => p.ball > caps.maxBall
    case Move => MoveBad(p, caps.maxMove)
  }

  /**
   * The whole check: a record is accepted exactly when every one of the six
   * limits holds; a rejection names a check that really fails.
   */
  function Validate(p: Pkm, caps: Caps): (v: Verdict)
    ensures v == Accepted <==>
      && p.species <= caps.maxSpecies
      && p.form <= caps.formCount(p.species)
      && p.ability <= caps.maxAbility
      && p.heldItem <= caps.maxItem
      && p.ball <= caps.maxBall
      && forall i :: 0 <= i < 4 ==> !MoveSlotBad(p, caps.maxMove, i)
    ensures v.Rejected? ==> Fails(p, caps, v.field)
  {
    FirstFailure(p, caps, MoveBad(p, caps.maxMove))
  }

  /** Acceptance is the absence of any failing check. */
  lemma AcceptedIffNoFailure(p: Pkm, caps: Caps)
    ensures Validate(p, caps) == Accepted <==> forall f :: !Fails(p, caps, f)
  {
  }

  /**
   * Only the first failing check is reported: f is reported exactly when f
   * fails and every check before it passes.
   */
  lemma ReportsFirstFailure(p: Pkm, caps: Caps, f: Field)
    ensures Validate(p, caps) == Rejected(f) <==>
      Fails(p, caps, f) && forall e :: Rank(e) < Rank(f) ==> !Fails(p, caps, e)
  {
  }

  /** A record over both the species and the ability limit is reported for its species. */
  lemma SpeciesReportedBeforeAbility(p: Pkm, caps: Caps)
    requires p.species > caps.maxSpecies && p.ability > caps.maxAbility
    ensures Validate(p, caps) == Rejected(Species)
  {
  }

  /**
   * The form bound is inclusive: a form equal to formCount(species) passes
   * the form check, so with every other field in range the record is accepted.
   */
  lemma FormAtCountAccepted(p: Pkm, caps: Caps)
    requires p.form == caps.formCount(p.species)
    requires forall f :: f != Form ==> !Fails(p, caps, f)
    ensures Validate(p, caps) == Accepted
  {
  }

  /**
   * The moveBad flag in terms of the two move lists: the four moves are
   * always inspected, the relearn moves only for SIX and SEVEN.
   */
  lemma {:induction false} MoveBadIff(p: Pkm, maxMove: nat)
    ensures MoveBad(p, maxMove) <==>
      || (exists i :: 0 <= i < 4 && p.moves[i] > maxMove)
      || (RelearnChecked(p.generation) && exists i :: 0 <= i < 4 && p.relearnMoves.value[i] > maxMove)
  {
    if MoveBad(p, maxMove) {
      var i :| 0 <= i < 4 && MoveSlotBad(p, maxMove, i);
    }
    if exists i :: 0 <= i < 4 && p.moves[i] > maxMove {
      var i :| 0 <= i < 4 && p.moves[i] > maxMove;
      assert MoveSlotBad(p, maxMove, i);
    }
    if RelearnChecked(p.generation) && exists i :: 0 <= i < 4 && p.relearnMoves.value[i] > maxMove {
      var i :| 0 <= i < 4 && p.relearnMoves.value[i] > maxMove;
      assert MoveSlotBad(p, maxMove, i);
    }
  }

  /** Relearn moves of FOUR, FIVE and LGPE records never affect moveBad. */
  lemma {:induction false} RelearnIgnoredOutsideSixSeven(p: Pkm, q: Pkm, maxMove: nat)
    requires !RelearnChecked(p.generation)
    requires q == p.(relearnMoves := q.relearnMoves)
    ensures MoveBad(q, maxMove) == MoveBad(p, maxMove)
  {
    MoveBadIff(p, maxMove);
    MoveBadIff(q, maxMove);
  }

  /** Every limit of `wide` is at least the corresponding limit of `narrow`. */
  ghost predicate Wider(wide: Caps, narrow: Caps) {
    && wide.maxSpecies >= narrow.maxSpecies
    && wide.maxMove >= narrow.maxMove
    && wide.maxAbility >= narrow.maxAbility
    && wide.maxItem >= narrow.maxItem
    && wide.maxBall >= narrow.maxBall
    && forall s :: wide.formCount(s) >= narrow.formCount(s)
  }

  /** A record accepted under some limits is accepted under any wider limits. */
  lemma {:induction false} AcceptanceMonotone(p: Pkm, narrow: Caps, wide: Caps)
    requires Wider(wide, narrow)
    requires Validate(p, narrow) == Accepted
    ensures Validate(p, wide) == Accepted
  {
    assert wide.formCount(p.species) >= narrow.formCount(p.species);
    forall i | 0 <= i < 4 ensures !MoveSlotBad(p, wide.maxMove, i) {
      assert !MoveSlotBad(p, narrow.maxMove, i);
    }
  }
}
