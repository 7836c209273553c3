/** What it means that a query is a declared statement: the same statement with values written in. */
module MatchMeaning {
  import opened Values
  import opened Schema
  import opened Plans
  import opened CompilerSpec
  import opened CompilerMeaning
  import opened Matching

  /** A parameter replaced by its value. */
  function WriteIn(op: Operand, values: seq<Value>): Operand {
    match op.parameter
    case Some(i) => if 0 <= i < |values| then Operand(None, Some(values[i])) else op
    case None => op
  }

  predicate AlikeOperands(x: Operand, y: Operand) {
    x.parameter.None? && y.parameter.None? && x.literal.Some? && y.literal.Some? && Alike(x.literal.value, y.literal.value)
  }

  /** With these values written in, the two plans are the same, up to the writing of their texts. */
  ghost predicate SameWrittenOut(p: Plan, values: seq<Value>, a: Plan, args: seq<Value>) {
    && p.kind == a.kind && p.table == a.table && p.projection == a.projection && p.columns == a.columns
    && p.order == a.order && p.limit == a.limit
    && |p.predicates| == |a.predicates| && |p.assignments| == |a.assignments|
    && (forall k :: 0 <= k < |p.predicates| ==>
          p.predicates[k].column == a.predicates[k].column
          && AlikeOperands(WriteIn(p.predicates[k].value, values), WriteIn(a.predicates[k].value, args)))
    && (forall k :: 0 <= k < |p.assignments| ==>
          p.assignments[k].column == a.assignments[k].column && p.assignments[k].addFrom == a.assignments[k].addFrom
          && AlikeOperands(WriteIn(p.assignments[k].value, values), WriteIn(a.assignments[k].value, args)))
  }

  /** A marker of the query stands only where the statement has the parameter of the same index. */
  ghost predicate MarkersAgree(p: Plan, a: Plan) {
    && |p.predicates| == |a.predicates| && |p.assignments| == |a.assignments|
    && (forall k :: 0 <= k < |p.predicates| ==>
          a.predicates[k].value.parameter.Some? ==> p.predicates[k].value.parameter == a.predicates[k].value.parameter)
    && (forall k :: 0 <= k < |p.assignments| ==>
          a.assignments[k].value.parameter.Some? ==> p.assignments[k].value.parameter == a.assignments[k].value.parameter)
  }

  /** Some predicate or assignment of the plan takes the parameter. */
  ghost predicate Uses(p: Plan, i: nat) {
    || (exists k :: 0 <= k < |p.predicates| && p.predicates[k].value.parameter == Some(i))
    || (exists k :: 0 <= k < |p.assignments| && p.assignments[k].value.parameter == Some(i))
  }

  /** One value for every parameter, each used, of its type, and among the values the statement allows. */
  ghost predicate Runnable(s: Statement, p: Plan, values: seq<Value>) {
    && |values| == |s.parameters| == |p.parameters|
    && forall i :: 0 <= i < |values| ==>
         && Uses(p, i) && Fits(p.parameters[i], values[i])
         && exists j :: 0 <= j < |s.parameters[i].allowed| && EqualValue(s.parameters[i].allowed[j], values[i])
  }

  // ---- place by place ----

  /** One operand of the statement and the one of the query in its place. */
  ghost predicate SamePlace(want: Place, got: Place, values: seq<Value>, args: seq<Value>) {
    && want.column == got.column && want.addFrom == got.addFrom
    && (got.operand.parameter.Some? ==> want.operand.parameter == got.operand.parameter)
    && AlikeOperands(WriteIn(want.operand, values), WriteIn(got.operand, args))
  }

  lemma PlaceMeans(want: Place, got: Place, values: seq<Value>, args: seq<Value>, n: nat, m: nat)
    requires OperandOk(want.operand, n) && OperandOk(got.operand, m) && |values| == n
    ensures PlaceUnifies(want, got, args, false, values) <==> SamePlace(want, got, values, args)
    ensures PlaceUnifies(want, got, args, true, values) <==> SamePlace(want, got, values, values)
  {
  }

  ghost predicate SamePlaces(p: Plan, values: seq<Value>, a: Plan, args: seq<Value>)
    requires |Places(p)| == |Places(a)|
  {
    forall k :: 0 <= k < |Places(p)| ==> SamePlace(Places(p)[k], Places(a)[k], values, args)
  }

  lemma PlacesMean(p: Plan, values: seq<Value>, a: Plan, args: seq<Value>)
    requires SameShape(p, a)
    ensures |Places(p)| == |Places(a)|
    ensures SamePlaces(p, values, a, args) <==> SameWrittenOut(p, values, a, args) && MarkersAgree(p, a)
  {
    hide WriteIn, AlikeOperands;
    var n := |p.predicates|;
    forall k | 0 <= k < n ensures Places(p)[k] == Place(p.predicates[k].column, "", p.predicates[k].value)
                                  && Places(a)[k] == Place(a.predicates[k].column, "", a.predicates[k].value) {
    }
    forall k | 0 <= k < |p.assignments|
      ensures Places(p)[n + k] == Place(p.assignments[k].column, p.assignments[k].addFrom, p.assignments[k].value)
           && Places(a)[n + k] == Place(a.assignments[k].column, a.assignments[k].addFrom, a.assignments[k].value)
    {
    }
    if SamePlaces(p, values, a, args) {
      assert forall k :: 0 <= k < n ==> SamePlace(Places(p)[k], Places(a)[k], values, args);
      forall k | 0 <= k < |p.assignments|
        ensures p.assignments[k].column == a.assignments[k].column && p.assignments[k].addFrom == a.assignments[k].addFrom
             && AlikeOperands(WriteIn(p.assignments[k].value, values), WriteIn(a.assignments[k].value, args))
             && (a.assignments[k].value.parameter.Some? ==> p.assignments[k].value.parameter == a.assignments[k].value.parameter)
      {
        assert SamePlace(Places(p)[n + k], Places(a)[n + k], values, args);
      }
    }
    if SameWrittenOut(p, values, a, args) && MarkersAgree(p, a) {
      forall k | 0 <= k < |Places(p)| ensures SamePlace(Places(p)[k], Places(a)[k], values, args) {
        assert k < n || Places(p)[k] == Places(p)[n + (k - n)];
      }
    }
  }

  lemma UsesMeans(p: Plan, a: Plan, i: nat)
    requires SameShape(p, a)
    ensures |Places(p)| == |Places(a)|
    ensures Matching.Assigned(Places(p), Places(a), false, i, |Places(p)|) <==> Uses(p, i)
  {
    var n := |p.predicates|;
    if k :| 0 <= k < |Places(p)| && Places(p)[k].operand.parameter == Some(i) {
      assert k >= n ==> p.assignments[k - n].value.parameter == Some(i);
    }
    if k :| 0 <= k < n && p.predicates[k].value.parameter == Some(i) {
      assert Places(p)[k].operand.parameter == Some(i);
    } else if k :| 0 <= k < |p.assignments| && p.assignments[k].value.parameter == Some(i) {
      assert Places(p)[n + k].operand.parameter == Some(i);
    }
  }

  lemma PlacesUnify(s: Statement, p: Plan, a: Plan, args: seq<Value>, values: seq<Value>, m: nat)
    requires OperandsOk(p, |s.parameters|) && OperandsOk(a, m) && SameShape(p, a) && |values| == |s.parameters|
    ensures |Places(p)| == |Places(a)|
    ensures (forall k :: 0 <= k < |Places(p)| ==> PlaceUnifies(Places(p)[k], Places(a)[k], args, false, values))
       <==> SameWrittenOut(p, values, a, args) && MarkersAgree(p, a)
    ensures (forall k :: 0 <= k < |Places(p)| ==> PlaceUnifies(Places(p)[k], Places(a)[k], args, true, values))
       <==> SameWrittenOut(p, values, a, values) && MarkersAgree(p, a)
  {
    PlacesMean(p, values, a, args);
    PlacesMean(p, values, a, values);
    hide PlaceUnifies, SamePlace, SameWrittenOut, MarkersAgree;
    forall k | 0 <= k < |Places(p)|
      ensures PlaceUnifies(Places(p)[k], Places(a)[k], args, false, values) <==> SamePlace(Places(p)[k], Places(a)[k], values, args)
      ensures PlaceUnifies(Places(p)[k], Places(a)[k], args, true, values) <==> SamePlace(Places(p)[k], Places(a)[k], values, values)
    {
      PlaceMeans(Places(p)[k], Places(a)[k], values, args, |s.parameters|, m);
    }
  }

  lemma ShapeOfSame(p: Plan, values: seq<Value>, a: Plan, args: seq<Value>)
    requires SameWrittenOut(p, values, a, args)
    ensures SameShape(p, a)
  {
  }

  lemma RunnableMeans(s: Statement, p: Plan, a: Plan, values: seq<Value>)
    requires SameShape(p, a) && |values| == |s.parameters| == |p.parameters|
    ensures |Places(p)| == |Places(a)|
    ensures Runnable(s, p, values) <==>
              forall i :: 0 <= i < |values| ==>
                && Matching.Assigned(Places(p), Places(a), false, i, |Places(p)|)
                && Fits(p.parameters[i], values[i]) && AllowedValue(s.parameters[i], values[i])
  {
    assert |Places(p)| == |Places(a)|;
    hide Matching.Assigned, Uses, Fits, EqualValue;
    forall i: nat ensures Matching.Assigned(Places(p), Places(a), false, i, |Places(p)|) <==> Uses(p, i) {
      UsesMeans(p, a, i);
    }
  }

  /** A query is run as the statement under these values exactly when these are values the statement may
      be run with, there are as many arguments as parameters if it has markers, its markers stand in the
      places of the parameters of the same index, and with arguments and values written in the two are
      the same statement. */
  lemma MatchMeans(s: Statement, p: Plan, a: Plan, markers: bool, args: seq<Value>, values: seq<Value>, m: nat)
    requires OperandsOk(p, |s.parameters|) && OperandsOk(a, m)
    ensures Instance(s, p, a, markers, args, false, values)
       <==> Runnable(s, p, values) && (markers ==> |args| == |values|) && MarkersAgree(p, a) && SameWrittenOut(p, values, a, args)
  {
    if SameShape(p, a) && |values| == |s.parameters| == |p.parameters| {
      PlacesUnify(s, p, a, args, values, m);
      RunnableMeans(s, p, a, values);
    }
    if SameWrittenOut(p, values, a, args) {
      ShapeOfSame(p, values, a, args);
    }
    hide PlaceUnifies, Matching.Assigned, Places, SameShape, SameWrittenOut, MarkersAgree, Fits, AllowedValue, Uses;
  }

  /** While it is prepared, a parameter stands for itself: the query matches exactly when with any values
      written in on both sides the two are the same statement. */
  lemma PrepareMeans(s: Statement, p: Plan, a: Plan, markers: bool, args: seq<Value>, values: seq<Value>, m: nat)
    requires OperandsOk(p, |s.parameters|) && OperandsOk(a, m)
    ensures Instance(s, p, a, markers, args, true, values)
       <==> |values| == |s.parameters| == |p.parameters| && MarkersAgree(p, a) && SameWrittenOut(p, values, a, values)
  {
    if SameShape(p, a) && |values| == |s.parameters| == |p.parameters| {
      PlacesUnify(s, p, a, args, values, m);
    }
    if SameWrittenOut(p, values, a, values) {
      ShapeOfSame(p, values, a, values);
    }
    hide PlaceUnifies, SameWrittenOut, MarkersAgree;
  }
}
