/** The add / remove / replace subset of RFC 6902, section 4, as the suite
    interprets it, and what it can touch. */
module JsonPatch {
  import opened Wrappers
  import opened Text
  import opened JsonPointer
  import opened JsonDiff

  /** The places where the interpreter raises. */
  datatype PatchError =
    | UnsupportedOperation
    | PointerSyntax
    | RootRemoval
    | MissingValue
    | ArrayIndex
    | MissingPath
    | InvalidForBase

  type Outcome = Result<Json, PatchError>

  datatype Verb = Add | Remove | Replace

  // ----- array indexes -----

  /** The regular expression 0|[1-9][0-9]*. */
  predicate IndexSyntax(token: string) {
    && token != ""
    && (forall i :: 0 <= i < |token| ==> IsDigit(token[i]))
    && (token[0] == '0' ==> |token| == 1)
  }

  function ArrayIndexOf(token: string, length: nat, allowEnd: bool): (r: Option<nat>)
    ensures r.Some? ==> r.value <= length && (r.value < length || allowEnd)
    ensures r.Some? ==> Decimal(r.value) == token
  {
    if !IndexSyntax(token) then None else
    DecimalNumeral(token);
    var index := Numeral(token);
    if index < length || (index == length && allowEnd) then Some(index) else None
  }

  /** A token addresses an element exactly when it is that element's numeral. */
  lemma ArrayIndexIsNumeral(token: string, length: nat, allowEnd: bool, i: nat)
    ensures ArrayIndexOf(token, length, allowEnd) == Some(i)
       <==> token == Decimal(i) && (i < length || (i == length && allowEnd))
  {
    NumeralDecimal(i);
  }

  // ----- one operation -----

  function VerbOf(operation: Json): Option<Verb> {
    if !operation.JObj? || "op" !in operation.members then None
    else match operation.members["op"]
         case JStr("add") => Some(Add)
         case JStr("remove") => Some(Remove)
         case JStr("replace") => Some(Replace)
         case _ => None
  }

  /** operation.get("path", "") */
  function PathOf(operation: Json): Json
    requires operation.JObj?
  {
    if "path" in operation.members then operation.members["path"] else JStr("")
  }

  function ValueOf(operation: Json): Option<Json>
    requires operation.JObj?
  {
    if "value" in operation.members then Some(operation.members["value"]) else None
  }

  /** The step `parent = parent[token]`. */
  function Child(parent: Json, token: string): Outcome {
    match parent
    case JArr(items) =>
      (match ArrayIndexOf(token, |items|, false)
       case Some(i) => Ok(items[i])
       case None => Err(ArrayIndex))
    case JObj(members) => if token in members then Ok(members[token]) else Err(MissingPath)
    case _ => Err(MissingPath)
  }

  /** `parent` with its child at `token` replaced. */
  function WithChild(parent: Json, token: string, child: Json): Json
    requires Child(parent, token).Ok?
  {
    match parent
    case JArr(items) => JArr(items[ArrayIndexOf(token, |items|, false).value := child])
    case JObj(members) => JObj(members[token := child])
  }

  /** The edit at the last token, on the container that holds it. */
  function EditContainer(parent: Json, token: string, verb: Verb, value: Option<Json>): Outcome {
    match parent
    case JArr(items) =>
      (match verb
       case Add =>
         if token == "-" then
           (if value.None? then Err(InvalidForBase) else Ok(JArr(items + [value.value])))
         else
           (match ArrayIndexOf(token, |items|, true)
            case None => Err(ArrayIndex)
            case Some(i) => if value.None? then Err(InvalidForBase) else Ok(JArr(items[..i] + [value.value] + items[i..])))
       case Remove =>
         (match ArrayIndexOf(token, |items|, false)
          case None => Err(ArrayIndex)
          case Some(i) => Ok(JArr(items[..i] + items[i + 1..])))
       case Replace =>
         // the right-hand side is evaluated before the index
         if value.None? then Err(InvalidForBase)
         else (match ArrayIndexOf(token, |items|, false)
               case None => Err(ArrayIndex)
               case Some(i) => Ok(JArr(items[i := value.value]))))
    case JObj(members) =>
      if verb.Remove? then
        (if token in members then Ok(JObj(members - {token})) else Err(InvalidForBase))
      else if verb.Replace? && token !in members then Err(InvalidForBase)
      else if value.None? then Err(InvalidForBase)
      else Ok(JObj(members[token := value.value]))
    case _ => Err(InvalidForBase)
  }

  function ApplyAt(document: Json, tokens: seq<string>, verb: Verb, value: Option<Json>): Outcome
    requires tokens != []
  {
    if |tokens| == 1 then EditContainer(document, tokens[0], verb, value)
    else match Child(document, tokens[0])
         case Err(e) => Err(e)
         case Ok(child) =>
           match ApplyAt(child, tokens[1..], verb, value)
           case Err(e) => Err(e)
           case Ok(edited) => Ok(WithChild(document, tokens[0], edited))
  }

  function ApplyOperation(document: Json, operation: Json): Outcome {
    match VerbOf(operation)
    case None => Err(UnsupportedOperation)
    case Some(verb) =>
      if !PathOf(operation).JStr? then Err(PointerSyntax)
      else match Decode(PathOf(operation).s)
           case None => Err(PointerSyntax)
           case Some(tokens) =>
             if tokens == [] then
               (if verb.Remove? then Err(RootRemoval)
                else match ValueOf(operation)
                     case None => Err(MissingValue)
                     case Some(value) => Ok(value))
             else ApplyAt(document, tokens, verb, ValueOf(operation))
  }

  function ApplyAll(document: Json, operations: seq<Json>): Outcome {
    if operations == [] then Ok(document)
    else match ApplyAll(document, operations[..|operations| - 1])
         case Err(e) => Err(e)
         case Ok(candidate) => ApplyOperation(candidate, operations[|operations| - 1])
  }

  lemma {:induction false} ErrorStops(document: Json, operations: seq<Json>, n: nat)
    requires n <= |operations| && ApplyAll(document, operations[..n]).Err?
    ensures ApplyAll(document, operations) == ApplyAll(document, operations[..n])
    decreases |operations| - n
  {
    if n < |operations| {
      assert operations[..n + 1][..n] == operations[..n];
      ErrorStops(document, operations, n + 1);
    } else {
      assert operations[..n] == operations;
    }
  }

  /** `_apply_json_patch`: the loop over the operations. */
  method ApplyJsonPatch(document: Json, operations: seq<Json>) returns (r: Outcome)
    ensures r == ApplyAll(document, operations)
  {
    var candidate := document;
    for i := 0 to |operations|
      invariant ApplyAll(document, operations[..i]) == Ok(candidate)
    {
      assert operations[..i + 1][..i] == operations[..i];
      var next := ApplyOperation(candidate, operations[i]);
      if next.Err? {
        ErrorStops(document, operations, i + 1);
        return next;
      }
      candidate := next.value;
    }
    assert operations[..|operations|] == operations;
    return Ok(candidate);
  }

  // ----- what an operation can touch -----

  /** The pointer at or below which an accepted edit shows: the edited member
      or element, or the whole array when its length changes. */
  function Footprint(document: Json, tokens: seq<string>, verb: Verb, value: Option<Json>): seq<string>
    requires tokens != [] && ApplyAt(document, tokens, verb, value).Ok?
  {
    if |tokens| == 1 then
      if document.JArr? && !verb.Replace? then [] else tokens
    else
      [tokens[0]] + Footprint(Child(document, tokens[0]).value, tokens[1..], verb, value)
  }

  /** What a path leads to. */
  function ValueAt(document: Json, tokens: seq<string>): Option<Json>
    decreases |tokens|
  {
    if tokens == [] then Some(document)
    else match Child(document, tokens[0]) case Err(_) => None case Ok(child) => ValueAt(child, tokens[1..])
  }

  predicate ArrayAt(document: Json, tokens: seq<string>) {
    ValueAt(document, tokens).Some? && ValueAt(document, tokens).value.JArr?
  }

  /** The footprint is the operation's own path, or the path of the array that
      an add or a remove edits. */
  lemma {:induction false} FootprintIsPathOrArray(document: Json, tokens: seq<string>, verb: Verb, value: Option<Json>)
    requires tokens != [] && ApplyAt(document, tokens, verb, value).Ok?
    ensures var f, parent := Footprint(document, tokens, verb, value), tokens[..|tokens| - 1];
            f == if !verb.Replace? && ArrayAt(document, parent) then parent else tokens
  {
    if |tokens| > 1 {
      FootprintIsPathOrArray(Child(document, tokens[0]).value, tokens[1..], verb, value);
      FrontOfTail(tokens);
    }
  }

  lemma FrontOfTail(s: seq<string>)
    requires |s| > 1
    ensures s == [s[0]] + s[1..] && s[..|s| - 1] == [s[0]] + s[1..][..|s| - 2] && s[..|s| - 1][1..] == s[1..][..|s| - 2]
  {
    var front, inner := s[..|s| - 1], s[1..][..|s| - 2];
    assert |inner| == |s| - 2 && |front[1..]| == |s| - 2;
    assert forall i :: 0 <= i < |inner| ==> inner[i] == s[i + 1] && front[1..][i] == s[i + 1];
    assert front[1..] == inner;
    assert front == [front[0]] + front[1..];
  }

  /** A pointer reached from `pointer` through `tokens`. */
  function Extend(pointer: string, tokens: seq<string>): string
    decreases |tokens|
  {
    if tokens == [] then pointer else Extend(Member(pointer, tokens[0]), tokens[1..])
  }

  lemma {:induction false} ExtendIsEncode(prefix: seq<string>, tokens: seq<string>)
    ensures Extend(Encode(prefix), tokens) == Encode(prefix + tokens)
    decreases |tokens|
  {
    if tokens == [] {
      assert prefix + tokens == prefix;
    } else {
      assert (prefix + [tokens[0]])[..|prefix|] == prefix;
      ExtendIsEncode(prefix + [tokens[0]], tokens[1..]);
      assert prefix + [tokens[0]] + tokens[1..] == prefix + tokens;
    }
  }

  lemma {:induction false} DigitsNeedNoEscape(s: string)
    requires forall i :: 0 <= i < |s| ==> IsDigit(s[i])
    ensures Escape(s) == s
  {
    if s != "" {
      DigitsNeedNoEscape(s[1..]);
      assert s == [s[0]] + s[1..];
      EscapeCons(s[0], s[1..]);
    }
  }

  lemma IndexIsMember(pointer: string, i: nat)
    ensures Index(pointer, i) == Member(pointer, Decimal(i))
  {
    DigitsNeedNoEscape(Decimal(i));
  }

  /** Replacing one child changes nothing outside it. */
  lemma ChildChange(parent: Json, token: string, child: Json, pointer: string, p: string)
    requires Child(parent, token).Ok?
    requires p in Changed(parent, WithChild(parent, token, child), pointer)
    ensures p in Changed(Child(parent, token).value, child, Member(pointer, token))
  {
    match parent
    case JArr(items) =>
      var at := ArrayIndexOf(token, |items|, false).value;
      IndexIsMember(pointer, at);
      forall i | 0 <= i < |items| && i != at
        ensures Changed(items[i], items[i], Index(pointer, i)) == {}
      {
        SameUnchanged(items[i], Index(pointer, i));
      }
    case JObj(members) =>
      forall key | key in members && key != token
        ensures Changed(members[key], members[key], Member(pointer, key)) == {}
      {
        SameUnchanged(members[key], Member(pointer, key));
      }
  }

  lemma EditChange(parent: Json, token: string, verb: Verb, value: Option<Json>, pointer: string, p: string)
    requires EditContainer(parent, token, verb, value).Ok?
    requires p in Changed(parent, EditContainer(parent, token, verb, value).value, pointer)
    ensures AtOrBelow(p, if parent.JArr? && !verb.Replace? then pointer else Member(pointer, token))
  {
    var edited := EditContainer(parent, token, verb, value).value;
    ChangedBelow(parent, edited, pointer, p);
    if parent.JObj? {
      var members := parent.members;
      forall key | key in members && key != token
        ensures Changed(members[key], members[key], Member(pointer, key)) == {}
      {
        SameUnchanged(members[key], Member(pointer, key));
      }
      if token in members && token in edited.members && p in Changed(members[token], edited.members[token], Member(pointer, token)) {
        ChangedBelow(members[token], edited.members[token], Member(pointer, token), p);
      }
    } else if verb.Replace? {
      ChildChange(parent, token, value.value, pointer, p);
      ChangedBelow(Child(parent, token).value, value.value, Member(pointer, token), p);
    }
  }

  lemma {:induction false} ApplyAtChange(document: Json, tokens: seq<string>, verb: Verb, value: Option<Json>,
                                         pointer: string, p: string)
    requires tokens != [] && ApplyAt(document, tokens, verb, value).Ok?
    requires p in Changed(document, ApplyAt(document, tokens, verb, value).value, pointer)
    ensures AtOrBelow(p, Extend(pointer, Footprint(document, tokens, verb, value)))
  {
    if |tokens| == 1 {
      EditChange(document, tokens[0], verb, value, pointer, p);
      assert Extend(pointer, [tokens[0]]) == Extend(Member(pointer, tokens[0]), [tokens[0]][1..]);
    } else {
      var child := Child(document, tokens[0]).value;
      var edited := ApplyAt(child, tokens[1..], verb, value).value;
      ChildChange(document, tokens[0], edited, pointer, p);
      ApplyAtChange(child, tokens[1..], verb, value, Member(pointer, tokens[0]), p);
      var f := Footprint(child, tokens[1..], verb, value);
      assert ([tokens[0]] + f)[1..] == f;
    }
  }

  /** The tokens of an operation's path. */
  function PathTokens(operation: Json): seq<string>
    requires operation.JObj?
  {
    if PathOf(operation).JStr? then
      match Decode(PathOf(operation).s)
      case Some(tokens) => tokens
      case None => []
    else []
  }

  /** The footprint of an accepted operation, as a pointer. */
  function OperationRoot(document: Json, operation: Json): string
    requires ApplyOperation(document, operation).Ok?
  {
    var tokens := PathTokens(operation);
    if tokens == [] then "" else
    Encode(Footprint(document, tokens, VerbOf(operation).value, ValueOf(operation)))
  }

  lemma OperationChange(document: Json, operation: Json, p: string)
    requires ApplyOperation(document, operation).Ok?
    requires p in Changed(document, ApplyOperation(document, operation).value, "")
    ensures AtOrBelow(p, OperationRoot(document, operation))
  {
    var tokens := PathTokens(operation);
    if tokens == [] {
      ChangedBelow(document, ApplyOperation(document, operation).value, "", p);
    } else {
      var verb, value := VerbOf(operation).value, ValueOf(operation);
      ApplyAtChange(document, tokens, verb, value, "", p);
      var f := Footprint(document, tokens, verb, value);
      ExtendIsEncode([], f);
      assert [] + f == f;
    }
  }

  /** A pointer lies at or below an operation's path or, for an add to or a
      remove from an array, at or below that array.  The path is read as the
      decoder reads it. */
  predicate Explains(candidate: Json, operation: Json, p: string)
    requires operation.JObj?
  {
    var tokens := PathTokens(operation);
    || AtOrBelow(p, Encode(tokens))
    || (tokens != [] && VerbOf(operation) != Some(Replace)
        && ArrayAt(candidate, tokens[..|tokens| - 1]) && AtOrBelow(p, Encode(tokens[..|tokens| - 1])))
  }

  lemma OperationExplains(document: Json, operation: Json, p: string)
    requires ApplyOperation(document, operation).Ok? && AtOrBelow(p, OperationRoot(document, operation))
    ensures Explains(document, operation, p)
  {
    var tokens := PathTokens(operation);
    if tokens != [] {
      FootprintIsPathOrArray(document, tokens, VerbOf(operation).value, ValueOf(operation));
    }
  }

  /** An accepted patch is accepted operation by operation. */
  lemma {:induction false} PrefixAccepted(document: Json, operations: seq<Json>, i: nat)
    requires ApplyAll(document, operations).Ok? && i < |operations|
    ensures ApplyAll(document, operations[..i]).Ok?
    ensures ApplyOperation(ApplyAll(document, operations[..i]).value, operations[i]).Ok?
  {
    if i < |operations| - 1 {
      PrefixAccepted(document, operations[..|operations| - 1], i);
      assert operations[..|operations| - 1][..i] == operations[..i];
    }
  }

  /** The operation at `i` of an accepted patch accounts for a change. */
  predicate ExplainedBy(document: Json, operations: seq<Json>, i: nat, p: string)
    requires ApplyAll(document, operations).Ok? && i < |operations|
  {
    PrefixAccepted(document, operations, i);
    Explains(ApplyAll(document, operations[..i]).value, operations[i], p)
  }

  lemma ExplainedEarlier(document: Json, operations: seq<Json>, i: nat, p: string)
    requires ApplyAll(document, operations).Ok? && i < |operations| - 1
    requires ApplyAll(document, operations[..|operations| - 1]).Ok?
    ensures ExplainedBy(document, operations[..|operations| - 1], i, p) <==> ExplainedBy(document, operations, i, p)
  {
    assert operations[..|operations| - 1][..i] == operations[..i];
  }

  lemma ExplainsBelow(candidate: Json, operation: Json, p: string, q: string)
    requires operation.JObj? && Explains(candidate, operation, q) && AtOrBelow(p, q)
    ensures Explains(candidate, operation, p)
  {
    var tokens := PathTokens(operation);
    if AtOrBelow(q, Encode(tokens)) {
      AtOrBelowTransitive(p, q, Encode(tokens));
    } else {
      AtOrBelowTransitive(p, q, Encode(tokens[..|tokens| - 1]));
    }
  }

  /** Every pointer at which an accepted patch leaves the document different lies
      at or below the path of one of its operations, or at or below the array
      that an add or a remove edited. */
  lemma {:induction false} PatchChangesOnlyItsPaths(document: Json, operations: seq<Json>, p: string)
    requires ApplyAll(document, operations).Ok?
    requires p in Changed(document, ApplyAll(document, operations).value, "")
    ensures exists i :: 0 <= i < |operations| && ExplainedBy(document, operations, i, p)
  {
    if operations == [] {
      SameUnchanged(document, "");
    } else {
      var n := |operations| - 1;
      PrefixAccepted(document, operations, n);
      var middle := ApplyAll(document, operations[..n]).value;
      var last := ApplyAll(document, operations).value;
      Triangle(document, middle, last, "", p);
      var q :| q in Changed(document, middle, "") + Changed(middle, last, "") && AtOrBelow(p, q);
      if q in Changed(middle, last, "") {
        OperationChange(middle, operations[n], q);
        OperationExplains(middle, operations[n], q);
        ExplainsBelow(middle, operations[n], p, q);
        assert ExplainedBy(document, operations, n, p);
      } else {
        PatchChangesOnlyItsPaths(document, operations[..n], q);
        var i :| 0 <= i < n && ExplainedBy(document, operations[..n], i, q);
        ExplainedEarlier(document, operations, i, q);
        PrefixAccepted(document, operations, i);
        ExplainsBelow(ApplyAll(document, operations[..i]).value, operations[i], p, q);
        assert ExplainedBy(document, operations, i, p);
      }
    }
  }

  /** The path as the decoder reads it is the path as written exactly when the
      pointer is grammatical; a stray tilde is read as an escaped one. */
  lemma PathIsReadAsWritten(operation: Json)
    requires operation.JObj? && PathOf(operation).JStr? && Decode(PathOf(operation).s).Some?
    ensures Encode(PathTokens(operation)) == PathOf(operation).s <==> ValidPointer(PathOf(operation).s)
  {
    EncodeDecode(PathOf(operation).s);
  }

  /** An add to or a remove from an array. */
  predicate EditsArray(document: Json, operation: Json)
    requires operation.JObj?
  {
    var tokens := PathTokens(operation);
    VerbOf(operation) != Some(Replace) && tokens != [] && ArrayAt(document, tokens[..|tokens| - 1])
  }

  lemma RootOfOperation(document: Json, operation: Json)
    requires ApplyOperation(document, operation).Ok?
    ensures var tokens := PathTokens(operation);
            OperationRoot(document, operation)
            == Encode(if EditsArray(document, operation) then tokens[..|tokens| - 1] else tokens)
  {
    var tokens := PathTokens(operation);
    if tokens != [] {
      FootprintIsPathOrArray(document, tokens, VerbOf(operation).value, ValueOf(operation));
    }
  }

  lemma MemberIsEncoded(parent: seq<string>, last: string)
    ensures Member(Encode(parent), last) == Encode(parent + [last]) && ValidPointer(Member(Encode(parent), last))
  {
    assert (parent + [last])[..|parent|] == parent;
    DecodeEncode(parent + [last]);
  }

  /** Where an accepted operation acts is its path as written or, only for an
      add to or a remove from an array, that array's, exactly when the path is
      grammatical. */
  lemma OperationRootIsPathOrArray(document: Json, operation: Json)
    requires ApplyOperation(document, operation).Ok?
    ensures var path, root := PathOf(operation).s, OperationRoot(document, operation);
            (if EditsArray(document, operation) then exists last :: path == Member(root, last) else path == root)
            <==> ValidPointer(path)
  {
    var tokens, path := PathTokens(operation), PathOf(operation).s;
    RootOfOperation(document, operation);
    PathIsReadAsWritten(operation);
    if EditsArray(document, operation) {
      var parent, token := tokens[..|tokens| - 1], tokens[|tokens| - 1];
      if last :| path == Member(Encode(parent), last) {
        MemberIsEncoded(parent, last);
      }
      assert Encode(tokens) == Member(Encode(parent), token);
    }
  }

  /** It can fail: a stray tilde is taken for a member whose name has a tilde. */
  lemma StrayTildeMovesThePlace()
    ensures var operation := JObj(map["op" := JStr("add"), "path" := JStr("/~2"), "value" := JNull]);
            && ApplyOperation(JObj(map[]), operation).Ok? && !ValidPointer("/~2")
            && OperationRoot(JObj(map[]), operation) == "/~02"
  {
    var operation := JObj(map["op" := JStr("add"), "path" := JStr("/~2"), "value" := JNull]);
    SplitPart("~2", "");
    assert "/~2"[1..] == "~2" && Unescape("~2") == "~2";
    assert UnescapeAll(["~2"]) == ["~2"];
    assert Escape("~2") == "~02";
    assert Encode(["~2"]) == "/~02";
    assert PathOf(operation) == JStr("/~2");
    AddsMember(operation, "~2");
    EncodeDecode("/~2");
  }

  lemma AddsMember(operation: Json, name: string)
    requires operation.JObj? && VerbOf(operation) == Some(Add) && ValueOf(operation).Some?
    requires PathOf(operation).JStr? && Decode(PathOf(operation).s) == Some([name])
    ensures ApplyOperation(JObj(map[]), operation).Ok? && OperationRoot(JObj(map[]), operation) == Encode([name])
  {
    RootOfOperation(JObj(map[]), operation);
  }

  // ----- what an operation achieves -----

  /** Does an edit here append to an array? */
  predicate Appends(document: Json, tokens: seq<string>)
    requires tokens != []
  {
    tokens[|tokens| - 1] == "-" && ArrayAt(document, tokens[..|tokens| - 1])
  }

  lemma ChildStays(document: Json, token: string, child: Json)
    requires Child(document, token).Ok?
    ensures Child(WithChild(document, token, child), token) == Ok(child)
    ensures WithChild(WithChild(document, token, child), token, Child(document, token).value) == document
  {}

  /** An accepted add or replace leaves its value at its path, unless it appends. */
  lemma {:induction false} WrittenIsThere(document: Json, tokens: seq<string>, verb: Verb, value: Json)
    requires tokens != [] && !verb.Remove? && ApplyAt(document, tokens, verb, Some(value)).Ok?
    ensures ValueAt(ApplyAt(document, tokens, verb, Some(value)).value, tokens) == Some(value) <==> !Appends(document, tokens)
  {
    if |tokens| > 1 {
      var child := Child(document, tokens[0]).value;
      FrontOfTail(tokens);
      WrittenIsThere(child, tokens[1..], verb, value);
      ChildStays(document, tokens[0], ApplyAt(child, tokens[1..], verb, Some(value)).value);
    }
  }

  lemma TakeAndPut(items: seq<Json>, i: nat)
    requires i < |items|
    ensures var fewer := items[..i] + items[i + 1..]; fewer[..i] + [items[i]] + fewer[i..] == items
  {}

  lemma PutAndTake(items: seq<Json>, i: nat, value: Json)
    requires i <= |items|
    ensures var more := items[..i] + [value] + items[i..]; more[..i] + more[i + 1..] == items
  {}

  lemma OneStep(document: Json, tokens: seq<string>)
    requires |tokens| == 1
    ensures ValueAt(document, tokens) == match Child(document, tokens[0]) case Err(_) => None case Ok(child) => Some(child)
    ensures ValueAt(document, tokens[..0]) == Some(document)
  {}

  lemma RemoveThenAddHere(parent: Json, token: string, value: Option<Json>)
    requires EditContainer(parent, token, Remove, value).Ok?
    ensures Child(parent, token).Ok?
    ensures EditContainer(EditContainer(parent, token, Remove, value).value, token, Add, Some(Child(parent, token).value))
         == Ok(parent)
  {
    if parent.JArr? {
      var i := ArrayIndexOf(token, |parent.items|, false).value;
      ArrayIndexIsNumeral(token, |parent.items|, false, i);
      ArrayIndexIsNumeral(token, |parent.items| - 1, true, i);
      TakeAndPut(parent.items, i);
    } else {
      assert (parent.members - {token})[token := parent.members[token]] == parent.members;
    }
  }

  lemma AddThenRemoveHere(parent: Json, token: string, value: Json)
    requires EditContainer(parent, token, Add, Some(value)).Ok?
    ensures EditContainer(EditContainer(parent, token, Add, Some(value)).value, token, Remove, None) == Ok(parent)
       <==> if parent.JArr? then token != "-" else token !in parent.members
  {
    if parent.JArr? {
      if token != "-" {
        var i := ArrayIndexOf(token, |parent.items|, true).value;
        ArrayIndexIsNumeral(token, |parent.items|, true, i);
        ArrayIndexIsNumeral(token, |parent.items| + 1, false, i);
        PutAndTake(parent.items, i, value);
      }
    } else {
      var after := parent.members[token := value] - {token};
      assert token !in after;
      if token !in parent.members {
        assert after == parent.members;
      }
    }
  }

  lemma ReplaceBackHere(parent: Json, token: string, value: Json)
    requires EditContainer(parent, token, Replace, Some(value)).Ok?
    ensures Child(parent, token).Ok?
    ensures EditContainer(EditContainer(parent, token, Replace, Some(value)).value, token, Replace, Some(Child(parent, token).value))
         == Ok(parent)
  {
    if parent.JArr? {
      var i := ArrayIndexOf(token, |parent.items|, false).value;
      assert parent.items[i := value][i := parent.items[i]] == parent.items;
    } else {
      assert parent.members[token := value][token := parent.members[token]] == parent.members;
    }
  }

  /** A removed value can be added back. */
  lemma {:induction false} RemoveThenAdd(document: Json, tokens: seq<string>, value: Option<Json>)
    requires tokens != [] && ApplyAt(document, tokens, Remove, value).Ok?
    ensures ValueAt(document, tokens).Some?
    ensures ApplyAt(ApplyAt(document, tokens, Remove, value).value, tokens, Add, ValueAt(document, tokens)) == Ok(document)
  {
    if |tokens| > 1 {
      var child := Child(document, tokens[0]).value;
      RemoveThenAdd(child, tokens[1..], value);
      ChildStays(document, tokens[0], ApplyAt(child, tokens[1..], Remove, value).value);
    } else {
      RemoveThenAddHere(document, tokens[0], value);
      OneStep(document, tokens);
    }
  }

  /** A removed member is gone. */
  lemma {:induction false} RemovedIsGone(document: Json, tokens: seq<string>, value: Option<Json>)
    requires tokens != [] && ApplyAt(document, tokens, Remove, value).Ok?
    requires !ArrayAt(document, tokens[..|tokens| - 1])
    ensures ValueAt(ApplyAt(document, tokens, Remove, value).value, tokens) == None
  {
    if |tokens| > 1 {
      var child := Child(document, tokens[0]).value;
      FrontOfTail(tokens);
      RemovedIsGone(child, tokens[1..], value);
      ChildStays(document, tokens[0], ApplyAt(child, tokens[1..], Remove, value).value);
    }
  }

  /** Removing what was added gives the document back exactly if nothing was
      overwritten and the value was not appended, which needs its index. */
  lemma {:induction false} AddThenRemove(document: Json, tokens: seq<string>, value: Json)
    requires tokens != [] && ApplyAt(document, tokens, Add, Some(value)).Ok?
    ensures ApplyAt(ApplyAt(document, tokens, Add, Some(value)).value, tokens, Remove, None) == Ok(document)
       <==> if ArrayAt(document, tokens[..|tokens| - 1]) then tokens[|tokens| - 1] != "-" else ValueAt(document, tokens).None?
  {
    if |tokens| > 1 {
      var child := Child(document, tokens[0]).value;
      FrontOfTail(tokens);
      AddThenRemove(child, tokens[1..], value);
      ChildStays(document, tokens[0], ApplyAt(child, tokens[1..], Add, Some(value)).value);
    } else {
      AddThenRemoveHere(document, tokens[0], value);
      OneStep(document, tokens);
    }
  }

  /** Replacing twice undoes the first replacement. */
  lemma {:induction false} ReplaceBack(document: Json, tokens: seq<string>, value: Json)
    requires tokens != [] && ApplyAt(document, tokens, Replace, Some(value)).Ok?
    ensures ValueAt(document, tokens).Some?
    ensures ApplyAt(ApplyAt(document, tokens, Replace, Some(value)).value, tokens, Replace, ValueAt(document, tokens))
         == Ok(document)
  {
    if |tokens| > 1 {
      var child := Child(document, tokens[0]).value;
      ReplaceBack(child, tokens[1..], value);
      ChildStays(document, tokens[0], ApplyAt(child, tokens[1..], Replace, Some(value)).value);
    } else {
      ReplaceBackHere(document, tokens[0], value);
      OneStep(document, tokens);
    }
  }

  /** An appended value is the last element of the array. */
  lemma {:induction false} AppendedIsLast(document: Json, tokens: seq<string>, value: Json)
    requires tokens != [] && Appends(document, tokens) && ApplyAt(document, tokens, Add, Some(value)).Ok?
    ensures ValueAt(ApplyAt(document, tokens, Add, Some(value)).value, tokens[..|tokens| - 1])
         == Some(JArr(ValueAt(document, tokens[..|tokens| - 1]).value.items + [value]))
  {
    if |tokens| > 1 {
      var child := Child(document, tokens[0]).value;
      FrontOfTail(tokens);
      AppendedIsLast(child, tokens[1..], value);
      ChildStays(document, tokens[0], ApplyAt(child, tokens[1..], Add, Some(value)).value);
    } else {
      OneStep(document, tokens);
    }
  }

  /** What an accepted operation achieves. */
  lemma OperationAchieves(document: Json, operation: Json)
    requires ApplyOperation(document, operation).Ok?
    ensures var tokens, after := PathTokens(operation), ApplyOperation(document, operation).value;
            if VerbOf(operation) == Some(Remove) then
              && tokens != [] && ValueAt(document, tokens).Some?
              && (!ArrayAt(document, tokens[..|tokens| - 1]) ==> ValueAt(after, tokens) == None)
              && ApplyAt(after, tokens, Add, ValueAt(document, tokens)) == Ok(document)
            else if tokens != [] && Appends(document, tokens) then
              ValueOf(operation).Some?
              && ValueAt(after, tokens[..|tokens| - 1])
                 == Some(JArr(ValueAt(document, tokens[..|tokens| - 1]).value.items + [ValueOf(operation).value]))
            else ValueOf(operation).Some? && ValueAt(after, tokens) == ValueOf(operation)
  {
    var tokens, verb := PathTokens(operation), VerbOf(operation).value;
    if tokens != [] {
      if verb.Remove? {
        RemoveThenAdd(document, tokens, ValueOf(operation));
        if !ArrayAt(document, tokens[..|tokens| - 1]) {
          RemovedIsGone(document, tokens, ValueOf(operation));
        }
      } else {
        WriteNeedsValue(document, tokens, verb, ValueOf(operation));
        WrittenIsThere(document, tokens, verb, ValueOf(operation).value);
        if Appends(document, tokens) {
          NoReplaceAtTheEnd(document, tokens, verb, ValueOf(operation));
          AppendedIsLast(document, tokens, ValueOf(operation).value);
        }
      }
    }
  }

  lemma {:induction false} WriteNeedsValue(document: Json, tokens: seq<string>, verb: Verb, value: Option<Json>)
    requires tokens != [] && !verb.Remove? && ApplyAt(document, tokens, verb, value).Ok?
    ensures value.Some?
  {
    if |tokens| > 1 {
      WriteNeedsValue(Child(document, tokens[0]).value, tokens[1..], verb, value);
    }
  }

  lemma {:induction false} NoReplaceAtTheEnd(document: Json, tokens: seq<string>, verb: Verb, value: Option<Json>)
    requires tokens != [] && Appends(document, tokens) && ApplyAt(document, tokens, verb, value).Ok?
    ensures verb.Add?
  {
    if |tokens| > 1 {
      FrontOfTail(tokens);
      NoReplaceAtTheEnd(Child(document, tokens[0]).value, tokens[1..], verb, value);
    } else {
      OneStep(document, tokens);
    }
  }
}
