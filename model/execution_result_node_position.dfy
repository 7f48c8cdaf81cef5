/** graphql.execution.nextgen.result.ExecutionResultNodePosition: where a
    result node sits in its parent, either at a list index or under an
    object key. */
module ExecutionResultNodePosition {
  import opened Common
  import JavaLang

  /** The two nullable fields. The factories set exactly one; the public
      constructors can also be handed null. */
  datatype Position = Position(index: Option<int>, key: Option<string>)

  /** `new ExecutionResultNodePosition(Integer index)`. */
  function FromIndex(index: Option<int>): (r: Position)
    ensures r.index == index && r.key.None?
  {
    Position(index, None)
  }

  /** `new ExecutionResultNodePosition(String key)`. */
  function FromKey(key: Option<string>): (r: Position)
    ensures r.index.None? && r.key == key
  {
    Position(None, key)
  }

  /** The factory `index(int)`. */
  function IndexPosition(index: int): Position
    requires JavaLang.IsInt(index)
  {
    FromIndex(Some(index))
  }

  /** The factory `key(String)`. */
  function KeyPosition(key: string): Position {
    FromKey(Some(key))
  }

  const NotNullMessage := "Object required to be not null"

  /** `getIndex`: the index, which must be set. */
  function GetIndex(p: Position): (r: Result<int>)
    ensures r.Ok? <==> p.index.Some?
    ensures r.Ok? ==> r.value == p.index.value
    ensures r.Throws? ==> r.error == AssertException(NotNullMessage)
  {
    if p.index.Some? then Ok(p.index.value) else Throws(AssertException(NotNullMessage))
  }

  /** `getKey`: the key, which must be set. */
  function GetKey(p: Position): (r: Result<string>)
    ensures r.Ok? <==> p.key.Some?
    ensures r.Ok? ==> r.value == p.key.value
    ensures r.Throws? ==> r.error == AssertException(NotNullMessage)
  {
    if p.key.Some? then Ok(p.key.value) else Throws(AssertException(NotNullMessage))
  }

  /** `toString`: the index's decimal text if there is an index, else the
      key (null if there is none). */
  function ToString(p: Position): Option<string> {
    if p.index.Some? then Some(JavaLang.IntToString(p.index.value)) else p.key
  }

  /** An index position gives back its index and has no key; its text is
      the index's decimal text, which parses back to the index. */
  lemma {:induction false} IndexPositionRoundTrip(index: int)
    requires JavaLang.IsInt(index)
    ensures GetIndex(IndexPosition(index)) == Ok(index)
    ensures GetKey(IndexPosition(index)).Throws?
    ensures ToString(IndexPosition(index)).Some?
    ensures JavaLang.ParseInt(ToString(IndexPosition(index)).value) == Ok(index)
  {
    JavaLang.ParseIntToString(index);
  }

  /** A key position gives back its key, has no index, and prints as the
      key. */
  lemma {:induction false} KeyPositionRoundTrip(key: string)
    ensures GetKey(KeyPosition(key)) == Ok(key)
    ensures GetIndex(KeyPosition(key)).Throws?
    ensures ToString(KeyPosition(key)) == Some(key)
  {
  }

  /** Two index positions print alike only when their indexes are equal,
      but a key that reads as a number prints like the index. */
  lemma {:induction false} ToStringOfIndexes(i: int, j: int)
    requires JavaLang.IsInt(i) && JavaLang.IsInt(j)
    ensures ToString(IndexPosition(i)) == ToString(IndexPosition(j)) <==> i == j
    ensures ToString(KeyPosition(JavaLang.IntToString(i))) == ToString(IndexPosition(i))
  {
    if ToString(IndexPosition(i)) == ToString(IndexPosition(j)) {
      JavaLang.ParseIntToString(i);
      JavaLang.ParseIntToString(j);
    }
  }
}
