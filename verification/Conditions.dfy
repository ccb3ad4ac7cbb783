/** Timestamped status conditions (controllers/condition.go). */
module Conditions {
  import opened Text

  datatype CondStatus = True | False | Unknown

  datatype Condition = Condition(ctype: string, lastUpdate: int, lastTransition: int,
                                 status: CondStatus, reason: string, message: string)

  const READY := "Ready"
  const ERROR := "Error"

  /** What a caller of setCondition asks for. */
  datatype Request = Request(status: CondStatus, reason: string, message: string)

  predicate Same(c: Condition, r: Request) {
    c.status == r.status && c.reason == r.reason && c.message == r.message
  }

  /** The last condition of a type, which is the one setCondition edits. */
  function LastIndex(cs: seq<Condition>, ctype: string): (i: int)
    ensures -1 <= i < |cs|
    ensures i >= 0 ==> cs[i].ctype == ctype
    ensures forall j :: i < j < |cs| ==> cs[j].ctype != ctype
  {
    if cs == [] then -1
    else if cs[|cs| - 1].ctype == ctype then |cs| - 1
    else LastIndex(cs[..|cs| - 1], ctype)
  }

  function Edited(c: Condition, r: Request, now: int): Condition {
    Condition(c.ctype, now, if c.status != r.status then now else c.lastTransition, r.status, r.reason, r.message)
  }

  function SetCondition(cs: seq<Condition>, ctype: string, r: Request, now: int): seq<Condition> {
    var i := LastIndex(cs, ctype);
    if i < 0 then cs + [Condition(ctype, now, now, r.status, r.reason, r.message)]
    else if Same(cs[i], r) then cs
    else cs[i := Edited(cs[i], r, now)]
  }

  ghost predicate Unique(cs: seq<Condition>) {
    forall i, j :: 0 <= i < j < |cs| ==> cs[i].ctype != cs[j].ctype
  }

  /** The condition of a type. With unique types first match and last match are the same. */
  function Find(cs: seq<Condition>, ctype: string): (r: Option<Condition>)
    ensures r.Some? ==> r.value.ctype == ctype && r.value in cs
    ensures r.None? <==> forall i :: 0 <= i < |cs| ==> cs[i].ctype != ctype
  {
    var i := LastIndex(cs, ctype);
    if i < 0 then None else Some(cs[i])
  }

  lemma FindIs(cs: seq<Condition>, i: nat)
    requires Unique(cs) && i < |cs|
    ensures Find(cs, cs[i].ctype) == Some(cs[i])
  {
  }

  /** What one edit means: the addressed condition carries the request, its transition time moves
      exactly when its status does, every other condition is untouched, and types stay unique. */
  lemma SetConditionMeaning(cs: seq<Condition>, ctype: string, r: Request, now: int)
    requires Unique(cs)
    ensures var cs' := SetCondition(cs, ctype, r, now);
            && Unique(cs')
            && Find(cs', ctype).Some? && Same(Find(cs', ctype).value, r)
            && (Find(cs, ctype).Some? && Find(cs, ctype).value.status == r.status ==>
                  Find(cs', ctype).value.lastTransition == Find(cs, ctype).value.lastTransition)
            && (Find(cs, ctype).None? || Find(cs, ctype).value.status != r.status ==>
                  Find(cs', ctype).value.lastTransition == now == Find(cs', ctype).value.lastUpdate)
            && (Find(cs', ctype) != Find(cs, ctype) ==> Find(cs', ctype).value.lastUpdate == now)
            && (forall t :: t != ctype ==> Find(cs', t) == Find(cs, t))
  {
    SetConditionHere(cs, ctype, r, now);
    forall t | t != ctype ensures Find(SetCondition(cs, ctype, r, now), t) == Find(cs, t) {
      SetConditionElsewhere(cs, ctype, r, now, t);
    }
    hide SetCondition, Find;
  }

  lemma SetConditionHere(cs: seq<Condition>, ctype: string, r: Request, now: int)
    requires Unique(cs)
    ensures var cs' := SetCondition(cs, ctype, r, now);
            && Unique(cs')
            && Find(cs', ctype) == Some(
              if Find(cs, ctype).None? then Condition(ctype, now, now, r.status, r.reason, r.message)
              else if Same(Find(cs, ctype).value, r) then Find(cs, ctype).value
              else Edited(Find(cs, ctype).value, r, now))
  {
    var i := LastIndex(cs, ctype);
    FindIs(SetCondition(cs, ctype, r, now), if i < 0 then |cs| else i);
  }

  lemma SetConditionElsewhere(cs: seq<Condition>, ctype: string, r: Request, now: int, t: string)
    requires Unique(cs) && t != ctype
    ensures Find(SetCondition(cs, ctype, r, now), t) == Find(cs, t)
  {
    var cs' := SetCondition(cs, ctype, r, now);
    SetConditionHere(cs, ctype, r, now);
    var j := LastIndex(cs, t);
    if j >= 0 {
      assert cs'[j] == cs[j];
      FindIs(cs', j);
    } else {
      assert forall k :: 0 <= k < |cs'| ==> cs'[k].ctype != t;
    }
  }

  /** Repeating a request changes nothing, at any later time. */
  lemma SetConditionFixpoint(cs: seq<Condition>, ctype: string, r: Request)
    requires Find(cs, ctype).Some? && Same(Find(cs, ctype).value, r)
    ensures forall now :: SetCondition(cs, ctype, r, now) == cs
  {
  }

  /** The working copy of a status whose condition list is edited through a pointer. */
  class StatusEditor {
    var conditions: seq<Condition>

    constructor (cs: seq<Condition>)
      ensures conditions == cs
    {
      conditions := cs;
    }

    method Set(ctype: string, r: Request, now: int)
      modifies this`conditions
      ensures conditions == SetCondition(old(conditions), ctype, r, now)
    {
      var c := -1;
      for i := 0 to |conditions|
        invariant c == LastIndex(conditions[..i], ctype)
        invariant conditions == old(conditions)
      {
        assert conditions[..i + 1][..i] == conditions[..i];
        if conditions[i].ctype == ctype {
          c := i;
        }
      }
      assert conditions[..|conditions|] == conditions;
      if c < 0 {
        Add(ctype, r, now);
      } else {
        if Same(conditions[c], r) {
          return;
        }
        var moved := if conditions[c].status != r.status then now else conditions[c].lastTransition;
        conditions := conditions[c := Condition(ctype, now, moved, r.status, r.reason, r.message)];
      }
    }

    /** The new condition is the one found from now on, others are found as before, and a type that was not
        there stays the only one of its name. */
    method Add(ctype: string, r: Request, now: int)
      modifies this`conditions
      ensures conditions == old(conditions) + [Condition(ctype, now, now, r.status, r.reason, r.message)]
      ensures Find(conditions, ctype) == Some(Condition(ctype, now, now, r.status, r.reason, r.message))
      ensures forall t :: t != ctype ==> Find(conditions, t) == Find(old(conditions), t)
      ensures Unique(old(conditions)) && Find(old(conditions), ctype).None? ==> Unique(conditions)
    {
      conditions := conditions + [Condition(ctype, now, now, r.status, r.reason, r.message)];
      assert conditions[..|conditions| - 1] == old(conditions);
    }
  }
}
