/** `Data.append(contentsOf:)`: appends an array of byte blocks to a `Data`
    value, block by block. `Data` is a value type and the Swift method is
    `mutating`, so the model takes the old value and returns the new one. */
module DataAppend {
  import opened HttpTypes
  import opened Seqs

  /** Appends each block of `data` to `bytes`, in array order. */
  method AppendContentsOf(bytes: Data, data: seq<Data>) returns (result: Data)
    ensures result == bytes + Flatten(data)
    ensures |result| == |bytes| + TotalLength(data)
    ensures bytes <= result
    ensures data == [] ==> result == bytes
  {
    result := bytes;
    for i := 0 to |data|
      invariant result == bytes + Flatten(data[..i])
    {
      FlattenSnoc(data[..i], data[i]);
      TakeSnoc(data, i);
      result := result + data[i];
    }
    assert data[..|data|] == data;
    FlattenLength(data);
  }

  /** Appending in two calls is appending the two arrays in one call. */
  lemma {:induction false} AppendTwice(bytes: Data, first: seq<Data>, second: seq<Data>)
    ensures (bytes + Flatten(first)) + Flatten(second) == bytes + Flatten(first + second)
  {
    FlattenAppend(first, second);
  }

  /** Empty blocks anywhere in the array contribute nothing. */
  lemma {:induction false} EmptyBlockInvisible(before: seq<Data>, after: seq<Data>)
    ensures Flatten(before + [[]] + after) == Flatten(before + after)
  {
    FlattenAppend(before + [[]], after);
    FlattenSnoc(before, []);
    FlattenAppend(before, after);
  }
}
