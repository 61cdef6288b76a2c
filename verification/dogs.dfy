/** The dog record returned by the remote service, and the operations the
    pages perform on lists of such records. */
module Dogs {

  import opened Optional
  import opened IdLists

  /** One adoptable dog. The postal code is text: it may carry leading zeros. */
  datatype Dog = Dog(
    id: string,
    img: string,
    name: string,
    age: nat,
    zipCode: string,
    breed: string)

  /** The ids of `dogs`, in the same order. */
  function Ids(dogs: seq<Dog>): (r: seq<string>)
    ensures |r| == |dogs|
    ensures forall i :: 0 <= i < |dogs| ==> r[i] == dogs[i].id
  {
    seq(|dogs|, i requires 0 <= i < |dogs| => dogs[i].id)
  }

  /** The records of `dogs` whose id is not `id`, in their original order. */
  function WithoutId(dogs: seq<Dog>, id: string): (r: seq<Dog>)
    ensures forall i :: 0 <= i < |r| ==> r[i].id != id
    ensures forall d: Dog :: d.id != id ==> multiset(r)[d] == multiset(dogs)[d]
    ensures IsSubsequence(r, dogs)
    ensures (forall i :: 0 <= i < |dogs| ==> dogs[i].id != id) ==> r == dogs
  {
    Filter(dogs, (d: Dog) => d.id != id)
  }

  /** Position of the first record whose id is `id`, if there is one. */
  function FirstIndex(dogs: seq<Dog>, id: string): (r: Option<nat>)
    ensures r.Some? ==> r.value < |dogs| && dogs[r.value].id == id
    ensures r.Some? ==> forall j :: 0 <= j < r.value ==> dogs[j].id != id
    ensures r.None? <==> forall j :: 0 <= j < |dogs| ==> dogs[j].id != id
  {
    if |dogs| == 0 then None
    else if dogs[0].id == id then Some(0)
    else
      match FirstIndex(dogs[1..], id)
      case None => None
      case Some(k) => Some(k + 1)
  }

  /** `Array.prototype.find` by id: the first record with that id, or none. */
  function Find(dogs: seq<Dog>, id: string): (r: Option<Dog>)
    ensures r.Some? ==> r.value in dogs && r.value.id == id
    ensures r.None? <==> id !in Ids(dogs)
    ensures forall k :: 0 <= k < |dogs| && dogs[k].id == id && (forall j :: 0 <= j < k ==> dogs[j].id != id) ==>
      r == Some(dogs[k])
  {
    match FirstIndex(dogs, id)
    case None => None
    case Some(k) => Some(dogs[k])
  }

  /** Removing records by id and then projecting ids is the same as projecting
      ids and then removing the id. */
  lemma {:induction false} IdsWithoutId(dogs: seq<Dog>, id: string)
    ensures Ids(WithoutId(dogs, id)) == Without(Ids(dogs), id)
  {
    if |dogs| > 0 {
      var rest := WithoutId(dogs[1..], id);
      assert Ids(rest) == Without(Ids(dogs[1..]), id) by {
        IdsWithoutId(dogs[1..], id);
      }
      assert Ids(dogs)[0] == dogs[0].id && Ids(dogs)[1..] == Ids(dogs[1..]);
      WithoutIdUnfold(dogs, id);
      WithoutUnfold(Ids(dogs), id);
      if dogs[0].id != id {
        IdsAppend([dogs[0]], rest);
      }
    }
  }

  /** One step of `WithoutId`. */
  lemma WithoutIdUnfold(dogs: seq<Dog>, id: string)
    requires |dogs| > 0
    ensures WithoutId(dogs, id) == (if dogs[0].id != id then [dogs[0]] else []) + WithoutId(dogs[1..], id)
  {
    FilterUnfold(dogs, (d: Dog) => d.id != id);
  }

  lemma IdsAppend(a: seq<Dog>, b: seq<Dog>)
    ensures Ids(a + b) == Ids(a) + Ids(b)
  {
  }

  /** Removing a record by id twice equals removing it once. */
  lemma WithoutIdIdempotent(dogs: seq<Dog>, id: string)
    ensures WithoutId(WithoutId(dogs, id), id) == WithoutId(dogs, id)
  {
  }
}
