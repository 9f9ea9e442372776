/** The mocks' own redline interpreter, and how it relates to the suite's. */
module Redline {
  import opened Wrappers
  import opened Text
  import opened JsonPointer
  import opened JsonDiff
  import opened JsonPatch

  /** The mocks accept only operations with exactly the defined members. */
  predicate ClosedShape(operation: Json) {
    && VerbOf(operation).Some?
    && operation.members.Keys == (if VerbOf(operation).value.Remove? then {"op", "path"} else {"op", "path", "value"})
  }

  /** The mocks' decoder also insists on the RFC 6901 grammar. */
  function DecodeStrict(path: Json): Option<seq<string>> {
    if !path.JStr? || !ValidPointer(path.s) then None
    else if path.s == "" then Some([])
    else Some(UnescapeAll(Split(path.s[1..])))
  }

  /** Position addressed by a token; None where the mocks raise IndexError. */
  function Position(token: string, length: nat, allowEnd: bool): (r: Option<nat>)
    ensures r.Some? ==> r.value <= length && (r.value == length ==> allowEnd)
  {
    if !IndexSyntax(token) then None
    else if Numeral(token) > length || (Numeral(token) == length && !allowEnd) then None
    else Some(Numeral(token))
  }

  function EditTarget(target: Json, last: string, verb: Verb, value: Json): Option<Json> {
    match (target, verb)
    case (JArr(items), Add) =>
      if last == "-" then Some(JArr(items + [value]))
      else (match Position(last, |items|, true)
            case Some(i) => Some(JArr(items[..i] + [value] + items[i..]))
            case None => None)
    case (JArr(items), Remove) =>
      (match Position(last, |items|, false)
       case Some(i) => Some(JArr(items[..i] + items[i + 1..]))
       case None => None)
    case (JArr(items), Replace) =>
      (match Position(last, |items|, false)
       case Some(i) => Some(JArr(items[i := value]))
       case None => None)
    case (JObj(members), Add) => Some(JObj(members[last := value]))
    case (JObj(members), Remove) => if last in members then Some(JObj(members - {last})) else None
    case (JObj(members), Replace) => if last in members then Some(JObj(members[last := value])) else None
    case _ => None
  }

  function EditBelow(target: Json, tokens: seq<string>, verb: Verb, value: Json): Option<Json>
    requires tokens != []
    decreases |tokens|
  {
    if |tokens| == 1 then EditTarget(target, tokens[0], verb, value)
    else match target
         case JArr(items) =>
           (match Position(tokens[0], |items|, false)
            case None => None
            case Some(i) =>
              match EditBelow(items[i], tokens[1..], verb, value)
              case None => None
              case Some(edited) => Some(JArr(items[i := edited])))
         case JObj(members) =>
           if tokens[0] !in members then None
           else (match EditBelow(members[tokens[0]], tokens[1..], verb, value)
                 case None => None
                 case Some(edited) => Some(JObj(members[tokens[0] := edited])))
         case _ => None
  }

  function RedlineOperation(candidate: Json, operation: Json): Option<Json> {
    if !ClosedShape(operation) then None
    else
      var verb := VerbOf(operation).value;
      match DecodeStrict(operation.members["path"])
      case None => None
      case Some(tokens) =>
        if tokens == [] then
          if verb.Remove? then None else Some(operation.members["value"])
        else
          EditBelow(candidate, tokens, verb, if verb.Remove? then JNull else operation.members["value"])
  }

  function RedlineAll(base: Json, operations: seq<Json>): Option<Json> {
    if operations == [] then Some(base)
    else match RedlineAll(base, operations[..|operations| - 1])
         case None => None
         case Some(candidate) => RedlineOperation(candidate, operations[|operations| - 1])
  }

  lemma {:induction false} NoneStops(base: Json, operations: seq<Json>, n: nat)
    requires n <= |operations| && RedlineAll(base, operations[..n]).None?
    ensures RedlineAll(base, operations).None?
    decreases |operations| - n
  {
    if n < |operations| {
      assert operations[..n + 1][..n] == operations[..n];
      NoneStops(base, operations, n + 1);
    } else {
      assert operations[..n] == operations;
    }
  }

  lemma NextOperation(base: Json, operations: seq<Json>, i: nat, candidate: Json)
    requires i < |operations| && RedlineAll(base, operations[..i]) == Some(candidate)
    ensures RedlineAll(base, operations[..i + 1]) == RedlineOperation(candidate, operations[i])
  {
    assert operations[..i + 1][..i] == operations[..i];
  }

  /** `_apply_redline`: a non-empty list of operations, applied in a loop. */
  method ApplyRedline(base: Json, patch: Json) returns (r: Option<Json>)
    ensures r == if patch.JArr? && patch.items != [] then RedlineAll(base, patch.items) else None
  {
    if !patch.JArr? || patch.items == [] {
      return None;
    }
    var candidate, operations := base, patch.items;
    for i := 0 to |operations|
      invariant RedlineAll(base, operations[..i]) == Some(candidate)
    {
      NextOperation(base, operations, i, candidate);
      var next := RedlineOperation(candidate, operations[i]);
      if next.None? {
        NoneStops(base, operations, i + 1);
        return None;
      }
      candidate := next.value;
    }
    assert operations[..|operations|] == operations;
    return Some(candidate);
  }

  // ----- the two interpreters agree -----

  lemma PositionAgrees(token: string, length: nat, allowEnd: bool)
    ensures Position(token, length, allowEnd) == ArrayIndexOf(token, length, allowEnd)
  {}

  lemma {:induction false} EditAgrees(target: Json, tokens: seq<string>, verb: Verb, value: Json, given: Option<Json>)
    requires tokens != [] && (!verb.Remove? ==> given == Some(value))
    ensures EditBelow(target, tokens, verb, value).Some? <==> ApplyAt(target, tokens, verb, given).Ok?
    ensures EditBelow(target, tokens, verb, value).Some? ==>
              ApplyAt(target, tokens, verb, given).value == EditBelow(target, tokens, verb, value).value
    decreases |tokens|
  {
    match target
    case JArr(items) =>
      PositionAgrees(tokens[0], |items|, false);
      PositionAgrees(tokens[0], |items|, true);
      if |tokens| > 1 && Position(tokens[0], |items|, false).Some? {
        EditAgrees(items[Position(tokens[0], |items|, false).value], tokens[1..], verb, value, given);
      }
    case JObj(members) =>
      if |tokens| > 1 && tokens[0] in members {
        EditAgrees(members[tokens[0]], tokens[1..], verb, value, given);
      }
    case _ =>
  }

  predicate StrictOperation(operation: Json) {
    ClosedShape(operation) && operation.members["path"].JStr? && ValidPointer(operation.members["path"].s)
  }

  lemma OperationAgrees(candidate: Json, operation: Json)
    ensures RedlineOperation(candidate, operation).Some?
       <==> StrictOperation(operation) && ApplyOperation(candidate, operation).Ok?
    ensures RedlineOperation(candidate, operation).Some? ==>
              ApplyOperation(candidate, operation).value == RedlineOperation(candidate, operation).value
  {
    if StrictOperation(operation) {
      var verb := VerbOf(operation).value;
      var tokens := Decode(operation.members["path"].s).value;
      if tokens != [] {
        EditAgrees(candidate, tokens, verb, if verb.Remove? then JNull else operation.members["value"], ValueOf(operation));
      }
    }
  }

  /** The mocks accept a list of operations exactly when each is closed and
      grammatical and the suite accepts them; then the results are equal. */
  lemma {:induction false} RedlineIsStrictPatch(base: Json, operations: seq<Json>)
    ensures RedlineAll(base, operations).Some?
       <==> ApplyAll(base, operations).Ok? && forall operation :: operation in operations ==> StrictOperation(operation)
    ensures RedlineAll(base, operations).Some? ==>
              ApplyAll(base, operations) == Ok(RedlineAll(base, operations).value)
  {
    if operations != [] {
      var n := |operations| - 1;
      RedlineIsStrictPatch(base, operations[..n]);
      assert operations == operations[..n] + [operations[n]];
      if RedlineAll(base, operations[..n]).Some? {
        OperationAgrees(RedlineAll(base, operations[..n]).value, operations[n]);
      }
    }
  }

  /** The suite is strictly more lenient: it removes a member even when the
      operation carries an unused value. */
  lemma SuiteIsMoreLenient()
    ensures var base := JObj(map["a" := JNull]);
            var operation := JObj(map["op" := JStr("remove"), "path" := JStr("/a"), "value" := JNull]);
            ApplyOperation(base, operation).Ok? && RedlineOperation(base, operation).None?
  {
    var base := JObj(map["a" := JNull]);
    var operation := JObj(map["op" := JStr("remove"), "path" := JStr("/a"), "value" := JNull]);
    assert Split("a") == ["a"] by { SplitPart("a", ""); }
    assert Unescape("a") == "a";
    assert "/a"[1..] == "a";
    assert UnescapeAll(["a"]) == ["a"];
    assert Decode("/a") == Some(["a"]);
    assert ApplyOperation(base, operation).Ok?;
    assert "value" in operation.members.Keys && "value" !in {"op", "path"};
  }
}
