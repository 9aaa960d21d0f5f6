/** Result types and sequence helpers shared by the model of the account monitor. */
module Base {

  datatype Option<+T> = None | Some(value: T)

  /** A value or the text of the error that stopped the computation. */
  datatype Result<+T> = Ok(value: T) | Err(error: string)

  /** How a Python call ends: it returns a value, or an exception escapes it. */
  datatype Outcome<+T> = Return(value: T) | Raise(exception: string)

  /** The blocks concatenated in order. */
  function Flatten<T>(blocks: seq<seq<T>>): seq<T>
  {
    if blocks == [] then [] else Flatten(blocks[..|blocks| - 1]) + blocks[|blocks| - 1]
  }

  lemma {:induction false} FlattenCons<T>(b: seq<T>, rest: seq<seq<T>>)
    ensures Flatten([b] + rest) == b + Flatten(rest)
    decreases |rest|
  {
    if rest != [] {
      var n := |rest| - 1;
      assert ([b] + rest)[..n + 1] == [b] + rest[..n];
      FlattenCons(b, rest[..n]);
    } else {
      assert [b] + rest == [b];
      assert [b][..0] == [];
    }
  }

  /** Blocks of two flatten to a sequence holding block `j` at `2 * j` and `2 * j + 1`. */
  lemma {:induction false} FlattenPairs<T>(blocks: seq<seq<T>>)
    requires forall j :: 0 <= j < |blocks| ==> |blocks[j]| == 2
    ensures |Flatten(blocks)| == 2 * |blocks|
    ensures forall j :: 0 <= j < |blocks| ==>
              Flatten(blocks)[2 * j] == blocks[j][0] && Flatten(blocks)[2 * j + 1] == blocks[j][1]
  {
    if blocks != [] {
      var n := |blocks| - 1;
      var init := blocks[..n];
      assert forall j :: 0 <= j < n ==> init[j] == blocks[j];
      FlattenPairs(init);
    }
  }
}
