/** Paging boundaries: the upper or lower limit of a page, carried as the
    query key it is read from, the limiting value and the order in which
    the page is walked from that limit. */
module Paging {

  datatype Order = Ascending | Descending

  /** The query keys a boundary can be read from. */
  const SinceIDKey := "since_id"
  const MinIDKey := "min_id"
  const MaxIDKey := "max_id"
  const MinShortcodeDomainKey := "min_shortcode_domain"
  const MaxShortcodeDomainKey := "max_shortcode_domain"

  datatype Boundary = Boundary(name: string, value: string, order: Order) {

    /** A copy of this boundary, with the same query key and order, that
        limits at `v` instead. */
    function With(v: string): (b: Boundary)
      ensures b.name == name && b.order == order && b.value == v
    {
      Boundary(name, v, order)
    }

    /** The first position of this boundary's value in `items`, or -1 when
        the value is absent or the boundary is unset (empty value). */
    method Find(items: seq<string>) returns (i: int)
      ensures -1 <= i < |items|
      ensures value == "" ==> i == -1
      ensures 0 <= i ==> items[i] == value && forall j :: 0 <= j < i ==> items[j] != value
      ensures value != "" && i == -1 ==> forall j :: 0 <= j < |items| ==> items[j] != value
    {
      if value == "" {
        return -1;
      }
      for k := 0 to |items|
        invariant forall j :: 0 <= j < k ==> items[j] != value
      {
        if items[k] == value {
          return k;
        }
      }
      return -1;
    }
  }

  /** A boundary whose query key is one of the five known keys, walked in the
      order that key implies: lower limits read as `min_…` ascend, every
      other key descends. */
  predicate WellKeyed(b: Boundary) {
    || (b.name == SinceIDKey && b.order == Descending)
    || (b.name == MinIDKey && b.order == Ascending)
    || (b.name == MaxIDKey && b.order == Descending)
    || (b.name == MinShortcodeDomainKey && b.order == Ascending)
    || (b.name == MaxShortcodeDomainKey && b.order == Descending)
  }

  function SinceID(sinceID: string): (b: Boundary)
    ensures WellKeyed(b) && b.name == SinceIDKey && b.order == Descending && b.value == sinceID
  {
    Boundary(SinceIDKey, sinceID, Descending)
  }

  function MinID(minID: string): (b: Boundary)
    ensures WellKeyed(b) && b.name == MinIDKey && b.order == Ascending && b.value == minID
  {
    Boundary(MinIDKey, minID, Ascending)
  }

  function MaxID(maxID: string): (b: Boundary)
    ensures WellKeyed(b) && b.name == MaxIDKey && b.order == Descending && b.value == maxID
  {
    Boundary(MaxIDKey, maxID, Descending)
  }

  function MinShortcodeDomain(min: string): (b: Boundary)
    ensures WellKeyed(b) && b.name == MinShortcodeDomainKey && b.order == Ascending && b.value == min
  {
    Boundary(MinShortcodeDomainKey, min, Ascending)
  }

  function MaxShortcodeDomain(max: string): (b: Boundary)
    ensures WellKeyed(b) && b.name == MaxShortcodeDomainKey && b.order == Descending && b.value == max
  {
    Boundary(MaxShortcodeDomainKey, max, Descending)
  }

  /** The lower ID boundary: `min_id` (ascending) when a min ID is given,
      otherwise `since_id` (descending), whatever its value. */
  function EitherMinID(minID: string, sinceID: string): (b: Boundary)
    ensures WellKeyed(b)
    ensures minID != "" ==> b.name == MinIDKey && b.order == Ascending && b.value == minID
    ensures minID == "" ==> b.name == SinceIDKey && b.order == Descending && b.value == sinceID
    ensures b.value != "" <==> minID != "" || sinceID != ""
  {
    if minID != "" then MinID(minID) else SinceID(sinceID)
  }

  /** Replacing the value keeps a boundary well keyed, replacing it with its
      own value changes nothing, and only the last replacement counts. */
  lemma WithKeepsKey(b: Boundary, v: string, w: string)
    ensures WellKeyed(b) ==> WellKeyed(b.With(v))
    ensures b.With(b.value) == b
    ensures b.With(v).With(w) == b.With(w)
  {
  }

  /** Re-valuing a boundary built by a constructor is the same as building
      it with the new value. */
  lemma WithRebuilds(u: string, v: string)
    ensures SinceID(u).With(v) == SinceID(v)
    ensures MinID(u).With(v) == MinID(v)
    ensures MaxID(u).With(v) == MaxID(v)
    ensures MinShortcodeDomain(u).With(v) == MinShortcodeDomain(v)
    ensures MaxShortcodeDomain(u).With(v) == MaxShortcodeDomain(v)
  {
  }

  /** The five query keys are pairwise distinct, so a boundary's key alone
      tells which constructor built it. */
  lemma KeysDistinct()
    ensures |{SinceIDKey, MinIDKey, MaxIDKey, MinShortcodeDomainKey, MaxShortcodeDomainKey}| == 5
  {
    assert SinceIDKey[0] != MinIDKey[0] && MinIDKey[1] != MaxIDKey[1];
    assert |MinIDKey| != |MinShortcodeDomainKey| && |MaxIDKey| != |MaxShortcodeDomainKey|;
    assert MinShortcodeDomainKey[1] != MaxShortcodeDomainKey[1];
  }
}
