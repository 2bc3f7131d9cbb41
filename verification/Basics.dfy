/** Vocabulary shared by every component of the model. */
module Basics {

  /** Opaque identifiers: uuid4 tokens, item ids, session ids, process ids. */
  type Id = nat

  type Byte = b: int | 0 <= b < 256

  type Bytes = seq<Byte>

  datatype Option<+T> = None | Some(value: T)

  /** What becomes of one step that touches a file, a database or a lock.
      A step that raises may do so before or after it took effect; a step at
      which the process dies has not taken effect (dying after a step is dying
      before the next one). */
  datatype Fate = Succeeds | RaisesBefore | RaisesAfter | Dies

  predicate TakesEffect(fate: Fate) {
    fate.Succeeds? || fate.RaisesAfter?
  }

  /** One placement of failures: the fates of the coming steps, in order.
      Steps past the end of the script succeed. */
  type Script = seq<Fate>

  function FirstFate(script: Script): Fate {
    if script == [] then Succeeds else script[0]
  }

  function LaterFates(script: Script): Script {
    if script == [] then [] else script[1..]
  }

  lemma ConcatAssociates<T>(a: seq<T>, b: seq<T>, c: seq<T>)
    ensures (a + b) + c == a + (b + c)
  {
  }
}
