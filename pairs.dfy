/** The pair and list substrate: cons, car, cdr and their compositions,
    `list`, and the conversions between host arrays and pair lists. */
module Pairs {
  import opened Values

  /** car: the first slot of a pair; anything else has no first slot. */
  function Car(p: Value): (r: Result<Value>)
    ensures r.Ok? <==> p.Pair?
    ensures r.Ok? ==> r.value == p.car
  {
    if p.Pair? then Ok(p.car) else Err(TypeError)
  }

  /** cdr: the second slot of a pair. */
  function Cdr(p: Value): (r: Result<Value>)
    ensures r.Ok? <==> p.Pair?
    ensures r.Ok? ==> r.value == p.cdr
  {
    if p.Pair? then Ok(p.cdr) else Err(TypeError)
  }

  function Cadr(o: Value): (r: Result<Value>)
    ensures r.Ok? <==> o.Pair? && o.cdr.Pair?
    ensures r.Ok? ==> r.value == o.cdr.car
  {
    var d :- Cdr(o); Car(d)
  }

  function Caadr(o: Value): (r: Result<Value>)
    ensures r.Ok? <==> o.Pair? && o.cdr.Pair? && o.cdr.car.Pair?
    ensures r.Ok? ==> r.value == o.cdr.car.car
  {
    var d :- Cadr(o); Car(d)
  }

  function Caddr(o: Value): (r: Result<Value>)
    ensures r.Ok? <==> o.Pair? && o.cdr.Pair? && o.cdr.cdr.Pair?
    ensures r.Ok? ==> r.value == o.cdr.cdr.car
  {
    var d :- Cddr(o); Car(d)
  }

  function Cdadr(o: Value): (r: Result<Value>)
    ensures r.Ok? <==> o.Pair? && o.cdr.Pair? && o.cdr.car.Pair?
    ensures r.Ok? ==> r.value == o.cdr.car.cdr
  {
    var d :- Cadr(o); Cdr(d)
  }

  function Cddr(o: Value): (r: Result<Value>)
    ensures r.Ok? <==> o.Pair? && o.cdr.Pair?
    ensures r.Ok? ==> r.value == o.cdr.cdr
  {
    var d :- Cdr(o); Cdr(d)
  }

  function Cdddr(o: Value): (r: Result<Value>)
    ensures r.Ok? <==> o.Pair? && o.cdr.Pair? && o.cdr.cdr.Pair?
    ensures r.Ok? ==> r.value == o.cdr.cdr.cdr
  {
    var d :- Cddr(o); Cdr(d)
  }

  function Cadddr(o: Value): (r: Result<Value>)
    ensures r.Ok? <==> o.Pair? && o.cdr.Pair? && o.cdr.cdr.Pair? && o.cdr.cdr.cdr.Pair?
    ensures r.Ok? ==> r.value == o.cdr.cdr.cdr.car
  {
    var d :- Cdddr(o); Car(d)
  }

  /** A proper list: a chain of pairs ending in Nil. */
  predicate IsList(v: Value) {
    v.Nil? || (v.Pair? && IsList(v.cdr))
  }

  /** The elements of a proper list, first to last. */
  function Elements(v: Value): seq<Value>
    requires IsList(v)
  {
    if v.Nil? then [] else [v.car] + Elements(v.cdr)
  }

  /** The number of elements of a proper list. */
  function Length(v: Value): nat
    requires IsList(v)
  {
    if v.Nil? then 0 else 1 + Length(v.cdr)
  }

  lemma {:induction false} LengthIsElementCount(v: Value)
    requires IsList(v)
    ensures Length(v) == |Elements(v)|
  {
    if v.Pair? { LengthIsElementCount(v.cdr); }
  }

  /** The number of cells in a value, counting every atom as one. */
  function Size(v: Value): nat {
    if v.Pair? then 1 + Size(v.car) + Size(v.cdr) else 1
  }

  /** `list(x1, ..., xn)`: a right fold of cons over the arguments that
      ends in null. */
  function List(xs: seq<Value>): Value {
    if |xs| == 0 then Nil else Pair(xs[0], List(xs[1..]))
  }

  /** `list` builds the proper list whose elements are its arguments, in order,
      and every proper list is built that way from its elements. */
  lemma {:induction false} ListElements(xs: seq<Value>)
    ensures IsList(List(xs)) && Elements(List(xs)) == xs && Length(List(xs)) == |xs|
  {
    if |xs| > 0 {
      ListElements(xs[1..]);
    }
  }

  lemma {:induction false} ElementsList(v: Value)
    requires IsList(v)
    ensures List(Elements(v)) == v
  {
    if v.Pair? {
      ElementsList(v.cdr);
      assert Elements(v)[1..] == Elements(v.cdr);
    }
  }

  /** JSArray2LispList: a right fold of cons over the array; an element that
      is itself an array is converted first. */
  function ArrayToList(a: seq<HostValue>): Value
    decreases a
  {
    if |a| == 0 then Nil
    else
      var x := match a[0]
        case Atom(v) => v
        case Array(items) => ArrayToList(items);
      Pair(x, ArrayToList(a[1..]))
  }

  /** LispList2JSArray: walk the chain of pairs, turning every element that
      is a pair into a nested array. Here the walk stops at the first tail
      that is not a pair. The source walks while the tail is truthy, so
      after a truthy atom tail it pushes that atom's car (undefined for a
      number) and goes on with its cdr; on proper lists the two agree. */
  function ListToArray(v: Value): seq<HostValue>
    decreases v
  {
    if v.Pair? then
      [if v.car.Pair? then Array(ListToArray(v.car)) else Atom(v.car)] + ListToArray(v.cdr)
    else []
  }

  /** The arrays that survive a round trip: no atom is a pair (a pair would
      come back as a nested array) and no nested array is empty (an empty
      array becomes null, and null comes back as an atom). */
  predicate ConvertibleArray(a: seq<HostValue>)
    decreases a
  {
    forall i :: 0 <= i < |a| ==>
      match a[i]
      case Atom(v) => !v.Pair?
      case Array(items) => |items| > 0 && ConvertibleArray(items)
  }

  /** Converting an array to a pair list and back gives the same array,
      nested non-empty arrays included. */
  lemma {:induction false} ArrayRoundTrip(a: seq<HostValue>)
    requires ConvertibleArray(a)
    ensures ListToArray(ArrayToList(a)) == a
    decreases a
  {
    if |a| > 0 {
      assert ConvertibleArray(a[1..]) by {
        forall i | 0 <= i < |a[1..]| ensures
          match a[1..][i]
          case Atom(v) => !v.Pair?
          case Array(items) => |items| > 0 && ConvertibleArray(items)
        {
          assert a[1..][i] == a[i + 1];
        }
      }
      ArrayRoundTrip(a[1..]);
      match a[0]
      case Atom(v) =>
      case Array(items) =>
        ArrayRoundTrip(items);
    }
  }

  /** A proper list whose elements that are pairs are themselves such lists. */
  predicate DeepList(v: Value)
    decreases v
  {
    v.Nil? || (v.Pair? && DeepList(v.cdr) && (v.car.Pair? ==> DeepList(v.car)))
  }

  /** Converting a nested proper list to an array and back gives the same list. */
  lemma {:induction false} ListRoundTrip(v: Value)
    requires DeepList(v)
    ensures ArrayToList(ListToArray(v)) == v
    decreases v
  {
    if v.Pair? {
      ListRoundTrip(v.cdr);
      if v.car.Pair? { ListRoundTrip(v.car); }
      var a := ListToArray(v);
      assert a[1..] == ListToArray(v.cdr);
    }
  }

  /** LispList2JSArray as the source writes it: a loop that pushes each
      element (converted when it is a pair) and advances along the cdrs. */
  method LispListToArray(list: Value) returns (a: seq<HostValue>)
    ensures a == ListToArray(list)
    decreases Size(list)
  {
    a := [];
    var rest := list;
    while rest.Pair?
      invariant Size(rest) <= Size(list)
      invariant ListToArray(list) == a + ListToArray(rest)
      decreases Size(rest)
    {
      var current := rest.car;
      if current.Pair? {
        var nested := LispListToArray(current);
        a := a + [Array(nested)];
      } else {
        a := a + [Atom(current)];
      }
      rest := rest.cdr;
    }
  }
}
