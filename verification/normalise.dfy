/**
 * The shape normaliser at the tail of `getAllMakes` and `getVehicleTypesForMake`.
 *
 * The XML parser is configured with `explicitArray: false`, so the value it
 * yields for a repeated container tag depends on how many elements the document
 * holds: no element gives nothing, one element gives the object itself, several
 * give an array, and an element with no content gives the empty string, alone
 * or inside that array. The service turns each of these into an array, but the
 * two call sites guard the missing case differently: the make list uses `??`
 * (only a missing value becomes `[]`), the type list uses `||` (every falsy
 * value, the lone empty string included, becomes `[]`). An empty string inside
 * an array is kept by both.
 */
module Normalise {

  /** One element of a parsed array: a record, or the empty string `""` of an element with no content. */
  datatype Node<T> = Element(value: T) | EmptyElement

  /** The value the parser yields for a container tag. */
  datatype Shape<T> =
    | Absent                    // the tag does not occur (`undefined`)
    | EmptyText                 // the tag occurs once with no content (`""`)
    | Single(item: T)           // the tag occurs once with content
    | Many(items: seq<Node<T>>) // the tag occurs several times, in document order

  /** Every node is a record. */
  predicate AllElements<T>(ns: seq<Node<T>>)
  {
    forall i :: 0 <= i < |ns| ==> ns[i].Element?
  }

  /** An array is all records exactly when both of its parts are. */
  lemma AllElementsAppend<T>(a: seq<Node<T>>, b: seq<Node<T>>)
    ensures AllElements(a + b) <==> AllElements(a) && AllElements(b)
  {
    if AllElements(a + b) {
      forall i | 0 <= i < |a| ensures a[i].Element? {
        assert (a + b)[i] == a[i];
      }
      forall i | 0 <= i < |b| ensures b[i].Element? {
        assert (a + b)[|a| + i] == b[i];
      }
    }
    if AllElements(a) && AllElements(b) {
      forall i | 0 <= i < |a + b| ensures (a + b)[i].Element? {
        if i < |a| {
          assert (a + b)[i] == a[i];
        } else {
          assert (a + b)[i] == b[i - |a|];
        }
      }
    }
  }

  /** The records, each as an array element. */
  function Elements<T>(xs: seq<T>): (r: seq<Node<T>>)
    ensures |r| == |xs|
    ensures forall i :: 0 <= i < |xs| ==> r[i] == Element(xs[i])
    ensures AllElements(r)
  {
    seq(|xs|, i requires 0 <= i < |xs| => Element(xs[i]))
  }

  /** The records of an array of nodes that holds no `""`. */
  function Values<T>(ns: seq<Node<T>>): (r: seq<T>)
    requires AllElements(ns)
    ensures |r| == |ns|
    ensures forall i :: 0 <= i < |ns| ==> ns[i] == Element(r[i])
  {
    seq(|ns|, i requires 0 <= i < |ns| => ns[i].value)
  }

  /** `const xs = container ?? []; return Array.isArray(xs) ? xs : [xs];` (make list). */
  function NormaliseNullish<T>(s: Shape<T>): (r: seq<Node<T>>)
    ensures s.Absent? ==> r == []
    ensures s.EmptyText? ==> r == [EmptyElement]
    ensures s.Single? ==> r == [Element(s.item)]
    ensures s.Many? ==> r == s.items
  {
    match s
    case Absent => []
    case EmptyText => [EmptyElement]
    case Single(x) => [Element(x)]
    case Many(xs) => xs
  }

  /** `const xs = container || []; return Array.isArray(xs) ? xs : [xs];` (type list). */
  function NormaliseFalsy<T>(s: Shape<T>): (r: seq<Node<T>>)
    ensures s.Absent? || s.EmptyText? ==> r == []
    ensures s.Single? ==> r == [Element(s.item)]
    ensures s.Many? ==> r == s.items
  {
    match s
    case Absent => []
    case EmptyText => []
    case Single(x) => [Element(x)]
    case Many(xs) => xs
  }

  /**
   * The parser's encoding of a container whose elements all have content:
   * nothing for zero elements, the element itself for one, an array for more.
   */
  function Encode<T>(children: seq<T>): (s: Shape<T>)
    ensures !s.EmptyText?
  {
    if |children| == 0 then Absent
    else if |children| == 1 then Single(children[0])
    else Many(Elements(children))
  }

  /**
   * Whatever the number of elements in the document, both normalisers give
   * back exactly those elements, in document order: zero gives `[]`, one a
   * one-element array, several the array itself.
   */
  lemma NormaliseRecoversChildren<T>(children: seq<T>)
    ensures NormaliseFalsy(Encode(children)) == Elements(children)
    ensures NormaliseNullish(Encode(children)) == Elements(children)
    ensures Values(NormaliseNullish(Encode(children))) == children
  {
    if |children| == 1 {
      assert Elements(children) == [Element(children[0])];
    }
  }

  /**
   * The two call sites agree on every shape except the lone empty element:
   * there the make list gets `[""]` and the type list gets `[]`.
   */
  lemma NullishFalsyDiffer<T>(s: Shape<T>)
    ensures s.EmptyText? <==> NormaliseNullish(s) != NormaliseFalsy(s)
    ensures s.EmptyText? ==> NormaliseNullish(s) == [EmptyElement] && NormaliseFalsy(s) == []
  {
  }

  /**
   * Where a `""` can come from: the make list holds one exactly when the
   * container was a lone empty element or an array holding one; the type list
   * only in the second case.
   */
  lemma BlankSources<T>(s: Shape<T>)
    ensures !AllElements(NormaliseNullish(s)) <==> s.EmptyText? || (s.Many? && !AllElements(s.items))
    ensures !AllElements(NormaliseFalsy(s)) <==> s.Many? && !AllElements(s.items)
  {
    if s.EmptyText? {
      assert !NormaliseNullish(s)[0].Element?;
    }
  }
}
