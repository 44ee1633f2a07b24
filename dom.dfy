/** The target element the playgrounds configure, reduced to the two things
    they touch: its JavaScript properties and its attributes. `applyProps`
    is specified by a left fold of one step per descriptor. */
module Dom {
  import opened Wrappers
  import opened Props

  /** What `applyProps` can observe and change of the target element. */
  datatype ElementState = ElementState(properties: map<string, Value>, attributes: map<string, string>)

  /** One iteration of `applyProps`: a null or `"null"` value removes the
      attribute named by the raw `name`; any other value is assigned to the
      property `name`. */
  function Step(s: ElementState, p: Prop): ElementState
  {
    if Nullish(p.value) then s.(attributes := s.attributes - {p.name})
    else s.(properties := s.properties[p.name := p.value])
  }

  /** The element after one step per descriptor, in list order. */
  function Applied(s: ElementState, ps: seq<Prop>): ElementState
    decreases |ps|
  {
    if |ps| == 0 then s else Step(Applied(s, ps[..|ps| - 1]), ps[|ps| - 1])
  }

  /** The value of the last descriptor named `k` that assigns a property:
      the one that wins when the list names `k` more than once. */
  function LastValue(ps: seq<Prop>, k: string): Option<Value>
    decreases |ps|
  {
    if |ps| == 0 then None
    else if ps[|ps| - 1].name == k && !Nullish(ps[|ps| - 1].value) then Some(ps[|ps| - 1].value)
    else LastValue(ps[..|ps| - 1], k)
  }

  /** Some descriptor named `k` holds a null or `"null"` value. */
  predicate Removes(ps: seq<Prop>, k: string)
  {
    exists i :: 0 <= i < |ps| && ps[i].name == k && Nullish(ps[i].value)
  }

  /** Property `k` afterwards holds the last assigned value, or is as it was
      when no descriptor assigns it. */
  lemma {:induction false} AppliedProperties(s: ElementState, ps: seq<Prop>, k: string)
    ensures var t := Applied(s, ps).properties;
      match LastValue(ps, k)
      case Some(v) => k in t && t[k] == v
      case None => (k in t <==> k in s.properties) && (k in t ==> t[k] == s.properties[k])
    decreases |ps|
  {
    if |ps| > 0 {
      AppliedProperties(s, ps[..|ps| - 1], k);
    }
  }

  /** Attribute `k` survives exactly when it was there and no descriptor
      named `k` is null; a surviving attribute keeps its text. */
  lemma {:induction false} AppliedAttributes(s: ElementState, ps: seq<Prop>, k: string)
    ensures k in Applied(s, ps).attributes <==> k in s.attributes && !Removes(ps, k)
    ensures k in Applied(s, ps).attributes ==> Applied(s, ps).attributes[k] == s.attributes[k]
    decreases |ps|
  {
    if |ps| > 0 {
      var init, last := ps[..|ps| - 1], ps[|ps| - 1];
      AppliedAttributes(s, init, k);
      if Removes(ps, k) && !(last.name == k && Nullish(last.value)) {
        var i :| 0 <= i < |ps| && ps[i].name == k && Nullish(ps[i].value);
        assert init[i] == ps[i];
      }
      if Removes(init, k) {
        var i :| 0 <= i < |init| && init[i].name == k && Nullish(init[i].value);
        assert ps[i] == init[i];
      }
      if last.name == k && Nullish(last.value) {
        assert ps[|ps| - 1] == last;
      }
    }
  }

  lemma {:induction false} LastValueOfLastAssignment(ps: seq<Prop>, i: int)
    requires 0 <= i < |ps| && !Nullish(ps[i].value)
    requires forall j :: i < j < |ps| ==> ps[j].name != ps[i].name
    ensures LastValue(ps, ps[i].name) == Some(ps[i].value)
    decreases |ps|
  {
    if i < |ps| - 1 {
      var init := ps[..|ps| - 1];
      assert init[i] == ps[i];
      LastValueOfLastAssignment(init, i);
    }
  }

  lemma {:induction false} LastValueOfUnnamed(ps: seq<Prop>, k: string)
    requires forall i :: 0 <= i < |ps| ==> ps[i].name != k
    ensures LastValue(ps, k) == None
    decreases |ps|
  {
    if |ps| > 0 {
      LastValueOfUnnamed(ps[..|ps| - 1], k);
    }
  }

  /** Per descriptor: a null or `"null"` entry leaves no attribute under its
      name, and an entry not overridden later leaves its value in the
      property of that name. */
  lemma ApplyEntry(s: ElementState, ps: seq<Prop>, i: int)
    requires 0 <= i < |ps|
    ensures Nullish(ps[i].value) ==> ps[i].name !in Applied(s, ps).attributes
    ensures !Nullish(ps[i].value) && (forall j :: i < j < |ps| ==> ps[j].name != ps[i].name) ==>
      ps[i].name in Applied(s, ps).properties && Applied(s, ps).properties[ps[i].name] == ps[i].value
  {
    AppliedAttributes(s, ps, ps[i].name);
    if !Nullish(ps[i].value) && (forall j :: i < j < |ps| ==> ps[j].name != ps[i].name) {
      LastValueOfLastAssignment(ps, i);
      AppliedProperties(s, ps, ps[i].name);
    }
  }

  /** Properties and attributes under a name no descriptor carries are left
      as they were. */
  lemma ApplyUnlisted(s: ElementState, ps: seq<Prop>, k: string)
    requires forall i :: 0 <= i < |ps| ==> ps[i].name != k
    ensures k in Applied(s, ps).properties <==> k in s.properties
    ensures k in s.properties ==> Applied(s, ps).properties[k] == s.properties[k]
    ensures k in Applied(s, ps).attributes <==> k in s.attributes
    ensures k in s.attributes ==> Applied(s, ps).attributes[k] == s.attributes[k]
  {
    LastValueOfUnnamed(ps, k);
    AppliedProperties(s, ps, k);
    AppliedAttributes(s, ps, k);
  }

  /** Re-applying an unchanged list leaves the element as one application
      did. */
  lemma ApplyIdempotent(s: ElementState, ps: seq<Prop>)
    ensures Applied(Applied(s, ps), ps) == Applied(s, ps)
  {
    var t := Applied(s, ps);
    var u := Applied(t, ps);
    forall k
      ensures k in u.properties <==> k in t.properties
      ensures k in u.properties ==> u.properties[k] == t.properties[k]
    {
      AppliedProperties(s, ps, k);
      AppliedProperties(t, ps, k);
    }
    forall k
      ensures k in u.attributes <==> k in t.attributes
      ensures k in u.attributes ==> u.attributes[k] == t.attributes[k]
    {
      AppliedAttributes(s, ps, k);
      AppliedAttributes(t, ps, k);
    }
    assert u.properties == t.properties;
    assert u.attributes == t.attributes;
  }

  /** The live target element, owned by the page: the playground only holds
      a reference to it. */
  class Element {
    var properties: map<string, Value>
    var attributes: map<string, string>

    constructor (properties: map<string, Value>, attributes: map<string, string>)
      ensures this.properties == properties && this.attributes == attributes
    {
      this.properties := properties;
      this.attributes := attributes;
    }

    function State(): ElementState
      reads this
    {
      ElementState(properties, attributes)
    }

    /** `el[name] = value`. */
    method SetProperty(name: string, v: Value)
      modifies this
      ensures properties == old(properties)[name := v]
      ensures attributes == old(attributes)
    {
      properties := properties[name := v];
    }

    /** `el.removeAttribute(name)`. */
    method RemoveAttribute(name: string)
      modifies this
      ensures attributes == old(attributes) - {name}
      ensures properties == old(properties)
    {
      attributes := attributes - {name};
    }

    /** The `forEach` of `applyProps`, shared verbatim by both playgrounds. */
    method ApplyProps(ps: seq<Prop>)
      modifies this
      ensures State() == Applied(old(State()), ps)
    {
      var i := 0;
      while i < |ps|
        invariant 0 <= i <= |ps|
        invariant State() == Applied(old(State()), ps[..i])
      {
        var p := ps[i];
        if p.value == VStr("null") || p.value == VNull {
          RemoveAttribute(p.name);
        } else {
          SetProperty(p.name, p.value);
        }
        assert ps[..i + 1][..i] == ps[..i];
        i := i + 1;
      }
      assert ps[..|ps|] == ps;
    }
  }
}
