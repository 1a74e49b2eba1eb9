/**
 * The save-format families a script may name, and the check every injection
 * entry point runs on the generation argument before it builds a record.
 */
module Generations {
  import opened Wrappers

  /** The five record families the scripting API knows about. */
  datatype Generation = Four | Five | Six | Seven | Lgpe

  /**
   * The generation argument as a script passes it: the integer is cast to the
   * generation enumeration, so it is either one of the five families above or
   * some other value of the enumeration (kept as its raw code).
   */
  datatype GenTag = Tag(gen: Generation) | Unlisted(code: int)

  /** The message with which the interpreter aborts the script on a bad tag. */
  const GenerationFailMessage: string := "Generation is not possible!"

  /**
   * checkGen: accepts exactly FOUR, FIVE, SIX, SEVEN and LGPE and yields that
   * family; every other tag fails the script with GenerationFailMessage.
   */
  function CheckGen(tag: GenTag): (r: Result<Generation, string>)
    ensures r.Ok? <==> tag in {Tag(Four), Tag(Five), Tag(Six), Tag(Seven), Tag(Lgpe)}
    ensures r.Ok? ==> tag == Tag(r.value)
    ensures r.Err? ==> r.error == GenerationFailMessage
  {
    match tag
    case Tag(Four) => Ok(Four)
    case Tag(Five) => Ok(Five)
    case Tag(Six) => Ok(Six)
    case Tag(Seven) => Ok(Seven)
    case Tag(Lgpe) => Ok(Lgpe)
    case Unlisted(_) => Err(GenerationFailMessage)
  }
}
