/**
 * The three script entry points that write a record into storage: box
 * injection and party injection into the loaded save, which transfer and
 * validate the record first, and bank injection, which writes unconditionally.
 */
module Injection {
  import opened Wrappers
  import opened Generations
  import opened Validation

  type Bytes = seq<bv8>

  /**
   * The record codecs: given the family chosen from the tag and the script's
   * raw bytes, the record the matching codec (PK4, PK5, PK6, PK7 or PB7)
   * builds. Its fields, including the generation it reports, are the codec's.
   */
  type Decoder = (Generation, Bytes) -> Pkm

  /** What a box or party injection decides once the record exists. */
  datatype Decision =
    | BadGeneration          // checkGen failed the script
    | Commit(pkm: Pkm)       // this record is written to the addressed slot
    | Skip                   // nothing written and nothing shown
    | Refuse(field: Field)   // warning shown for the first failing check

  /** What the script observes besides the slot contents. */
  datatype Effect =
    | ScriptFailed(message: string)
    | Warning(title: string, detail: string)
    | Quiet

  /**
   * The decision shared by box and party injection for an already decoded
   * record on a save of generation `dest` with limits `caps`.
   */
  function Decide(dest: Generation, caps: Caps, transfer: Pkm -> Pkm, pkm: Pkm): (d: Decision) {
    if dest == Lgpe then
      if pkm.generation == Lgpe then Commit(pkm) else Skip
    else
      var moved := transfer(pkm);
      match Validate(moved, caps)
      case Accepted => Commit(moved)
      case Rejected(f) => Refuse(f)
  }

  /** The full decision of box or party injection, from the script's arguments. */
  function Plan(dest: Generation, caps: Caps, transfer: Pkm -> Pkm,
                decode: Decoder, data: Bytes, tag: GenTag): (d: Decision)
  {
    match CheckGen(tag)
    case Err(_) => BadGeneration
    case Ok(g) => Decide(dest, caps, transfer, decode(g, data))
  }

  /** The message a decision shows: the interpreter's abort or the two-line warning. */
  function EffectOf(d: Decision): (e: Effect)
    ensures e.ScriptFailed? <==> d.BadGeneration?
    ensures e.Warning? <==> d.Refuse?
    ensures d.Refuse? ==> e == Warning(TransferWarning, WarningKey(d.field))
  {
    match d
    case BadGeneration => ScriptFailed(GenerationFailMessage)
    case Refuse(f) => Warning(TransferWarning, WarningKey(f))
    case _ => Quiet
  }

  /**
   * On a non-LGPE save the record is always transferred, and the transferred
   * record is written exactly when it passes all six limits.
   */
  lemma NonLgpeCommitIff(dest: Generation, caps: Caps, transfer: Pkm -> Pkm, pkm: Pkm)
    requires dest != Lgpe
    ensures Decide(dest, caps, transfer, pkm).Commit? <==>
      var moved := transfer(pkm);
      && moved.species <= caps.maxSpecies
      && moved.form <= caps.formCount(moved.species)
      && moved.ability <= caps.maxAbility
      && moved.heldItem <= caps.maxItem
      && moved.ball <= caps.maxBall
      && !MoveBad(moved, caps.maxMove)
    ensures Decide(dest, caps, transfer, pkm).Commit? ==> Decide(dest, caps, transfer, pkm).pkm == transfer(pkm)
    ensures !Decide(dest, caps, transfer, pkm).Skip?
  {
  }

  /**
   * On a non-LGPE save a refusal names the first failing check of the
   * transferred record, in the order species, form, ability, item, ball, move.
   */
  lemma RefusalNamesFirstFailure(dest: Generation, caps: Caps, transfer: Pkm -> Pkm, pkm: Pkm, f: Field)
    requires dest != Lgpe
    ensures Decide(dest, caps, transfer, pkm) == Refuse(f) <==>
      Fails(transfer(pkm), caps, f) && forall e :: Rank(e) < Rank(f) ==> !Fails(transfer(pkm), caps, e)
  {
  }

  /**
   * On an LGPE save nothing is transferred or validated: an LGPE record is
   * written as decoded, any other record is silently dropped.
   */
  lemma LgpeDirectPath(caps: Caps, transfer: Pkm -> Pkm, pkm: Pkm)
    ensures Decide(Lgpe, caps, transfer, pkm) == (if pkm.generation == Lgpe then Commit(pkm) else Skip)
    ensures !Decide(Lgpe, caps, transfer, pkm).Refuse?
  {
  }

  /**
   * A species far past the limit (99999 against 811) is refused for its
   * species, whatever else is wrong with the record.
   */
  lemma OutOfRangeSpeciesRefused(dest: Generation, caps: Caps, transfer: Pkm -> Pkm, pkm: Pkm)
    requires dest != Lgpe
    requires caps.maxSpecies == 811 && transfer(pkm).species == 99999
    ensures Decide(dest, caps, transfer, pkm) == Refuse(Species)
    ensures EffectOf(Decide(dest, caps, transfer, pkm)) == Warning("STORAGE_BAD_TRANFER", "STORAGE_BAD_SPECIES")
  {
  }

  /** What a box slot holds after an injection: the record and the trade-edit request. */
  datatype Stored = Stored(pkm: Pkm, tradeEdits: bool)

  /** The loaded save: its family, its limits, its transfer step and its slots. */
  class Save {
    const generation: Generation
    const caps: Caps
    /** The save's own transfer of a foreign record into its format. */
    const transfer: Pkm -> Pkm
    /** Box storage, addressed by (box, slot). */
    var boxes: map<(int, int), Stored>
    /** The party, addressed by slot. */
    var party: map<int, Pkm>

    constructor (generation: Generation, caps: Caps, transfer: Pkm -> Pkm,
                 boxes: map<(int, int), Stored>, party: map<int, Pkm>)
      ensures this.generation == generation && this.caps == caps && this.transfer == transfer
      ensures this.boxes == boxes && this.party == party
    {
      this.generation := generation;
      this.caps := caps;
      this.transfer := transfer;
      this.boxes := boxes;
      this.party := party;
    }

    /**
     * sav_inject_pkx: check the tag, build the record, then on an LGPE save
     * write it only if it is an LGPE record; on any other save transfer it,
     * run the moveBad loop and the ordered checks, and write the transferred
     * record only if all pass. Only the (box, slot) entry can change; the
     * trade-edit flag is handed to the write and gates nothing.
     */
    method InjectBox(decode: Decoder, data: Bytes, tag: GenTag, box: int, slot: int, doTradeEdits: bool)
      returns (effect: Effect)
      modifies this
      ensures effect == EffectOf(Plan(generation, caps, transfer, decode, data, tag))
      ensures party == old(party)
      ensures boxes ==
        match Plan(generation, caps, transfer, decode, data, tag)
        case Commit(p) => old(boxes)[(box, slot) := Stored(p, doTradeEdits)]
        case _ => old(boxes)
    {
      var gen := CheckGen(tag);
      if gen.Err? {
        effect := ScriptFailed(gen.error);
        return;
      }
      var pkm := decode(gen.value, data);
      if generation == Lgpe {
        if pkm.generation == Lgpe {
          boxes := boxes[(box, slot) := Stored(pkm, doTradeEdits)];
        }
        effect := Quiet;
      } else {
        var moved := transfer(pkm);
        var moveBad := ComputeMoveBad(moved, caps.maxMove);
        var verdict := FirstFailure(moved, caps, moveBad);
        if verdict.Rejected? {
          effect := Warning(TransferWarning, WarningKey(verdict.field));
          return;
        }
        boxes := boxes[(box, slot) := Stored(moved, doTradeEdits)];
        effect := Quiet;
      }
    }

    /**
     * party_inject_pkx: the same decision as InjectBox; the write goes to the
     * party slot and only that entry can change.
     */
    method InjectParty(decode: Decoder, data: Bytes, tag: GenTag, slot: int)
      returns (effect: Effect)
      modifies this
      ensures effect == EffectOf(Plan(generation, caps, transfer, decode, data, tag))
      ensures boxes == old(boxes)
      ensures party ==
        match Plan(generation, caps, transfer, decode, data, tag)
        case Commit(p) => old(party)[slot := p]
        case _ => old(party)
    {
      var gen := CheckGen(tag);
      if gen.Err? {
        effect := ScriptFailed(gen.error);
        return;
      }
      var pkm := decode(gen.value, data);
      if generation == Lgpe {
        if pkm.generation == Lgpe {
          party := party[slot := pkm];
        }
        effect := Quiet;
      } else {
        var moved := transfer(pkm);
        var moveBad := ComputeMoveBad(moved, caps.maxMove);
        var verdict := FirstFailure(moved, caps, moveBad);
        if verdict.Rejected? {
          effect := Warning(TransferWarning, WarningKey(verdict.field));
          return;
        }
        party := party[slot := moved];
        effect := Quiet;
      }
    }
  }

  /** The bank: cold storage addressed by (box, slot), with no limits of its own. */
  class Bank {
    var slots: map<(int, int), Pkm>

    constructor (slots: map<(int, int), Pkm>)
      ensures this.slots == slots
    {
      this.slots := slots;
    }

    /**
     * bank_inject_pkx: check the tag, build the record and write it to
     * (box, slot) as decoded: no transfer and no limit is consulted.
     */
    method Inject(decode: Decoder, data: Bytes, tag: GenTag, box: int, slot: int)
      returns (effect: Effect)
      modifies this
      ensures CheckGen(tag).Err? ==> effect == ScriptFailed(GenerationFailMessage) && slots == old(slots)
      ensures CheckGen(tag).Ok? ==>
        effect == Quiet && slots == old(slots)[(box, slot) := decode(CheckGen(tag).value, data)]
    {
      var gen := CheckGen(tag);
      if gen.Err? {
        effect := ScriptFailed(gen.error);
        return;
      }
      var pkm := decode(gen.value, data);
      slots := slots[(box, slot) := pkm];
      effect := Quiet;
    }
  }
}
