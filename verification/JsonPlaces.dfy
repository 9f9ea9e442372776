/** The two diffs and the two edit checks, place by place: which tokens lead to
    where two documents part. */
module JsonPlaces {
  import opened Wrappers
  import opened Text
  import opened JsonPointer
  import opened JsonDiff
  import opened JsonPatch

  /** What is one token further. */
  function Below(x: Option<Json>, token: string): Option<Json> {
    match x
    case None => None
    case Some(j) => (match Child(j, token) case Ok(child) => Some(child) case Err(_) => None)
  }

  function At(x: Option<Json>, tokens: seq<string>): Option<Json>
    decreases |tokens|
  {
    if tokens == [] then x else At(Below(x, tokens[0]), tokens[1..])
  }

  lemma {:induction false} AtIsValueAt(j: Json, tokens: seq<string>)
    ensures At(Some(j), tokens) == ValueAt(j, tokens)
    decreases |tokens|
  {
    if tokens != [] {
      if Child(j, tokens[0]).Ok? {
        AtIsValueAt(Child(j, tokens[0]).value, tokens[1..]);
      } else {
        AtNone(tokens[1..]);
      }
    }
  }

  lemma {:induction false} AtNone(tokens: seq<string>)
    ensures At(None, tokens) == None
  {
    if tokens != [] {
      AtNone(tokens[1..]);
    }
  }

  /** Two documents part at a place where only one of them has anything, where
      they have values of different types or different scalars, and, if lengths
      count, where they have arrays of different lengths. */
  predicate Part(x: Option<Json>, y: Option<Json>, lengths: bool) {
    match (x, y)
    case (None, None) => false
    case (Some(a), Some(b)) =>
      (match (a, b)
       case (JObj(_), JObj(_)) => false
       case (JArr(xs), JArr(ys)) => lengths && |xs| != |ys|
       case (JNull, JNull) => false
       case (JBool(p), JBool(q)) => p != q
       case (JInt(i), JInt(j)) => i != j
       case (JFloat(r), JFloat(s)) => r != s
       case (JStr(s), JStr(t)) => s != t
       case _ => true)
    case _ => true
  }

  /** The outermost places where they part. */
  predicate PartFirst(x: Option<Json>, y: Option<Json>, tokens: seq<string>, lengths: bool) {
    && Part(At(x, tokens), At(y, tokens), lengths)
    && forall n :: 0 <= n < |tokens| ==> !Part(At(x, tokens[..n]), At(y, tokens[..n]), lengths)
  }

  lemma PartFirstStep(x: Option<Json>, y: Option<Json>, tokens: seq<string>, lengths: bool)
    requires tokens != []
    ensures PartFirst(x, y, tokens, lengths)
       <==> !Part(x, y, lengths) && PartFirst(Below(x, tokens[0]), Below(y, tokens[0]), tokens[1..], lengths)
  {
    var rest := tokens[1..];
    forall n | 0 <= n < |rest|
      ensures At(x, tokens[..n + 1]) == At(Below(x, tokens[0]), rest[..n])
      ensures At(y, tokens[..n + 1]) == At(Below(y, tokens[0]), rest[..n])
    {
      assert tokens[..n + 1][1..] == rest[..n];
    }
    assert tokens[..0] == [];
    if PartFirst(x, y, tokens, lengths) {
      assert !Part(At(x, tokens[..0]), At(y, tokens[..0]), lengths);
      forall n | 0 <= n < |rest|
        ensures !Part(At(Below(x, tokens[0]), rest[..n]), At(Below(y, tokens[0]), rest[..n]), lengths)
      {
        assert !Part(At(x, tokens[..n + 1]), At(y, tokens[..n + 1]), lengths);
      }
    }
    if !Part(x, y, lengths) && PartFirst(Below(x, tokens[0]), Below(y, tokens[0]), rest, lengths) {
      forall n | 0 <= n < |tokens|
        ensures !Part(At(x, tokens[..n]), At(y, tokens[..n]), lengths)
      {
        if n > 0 {
          assert !Part(At(Below(x, tokens[0]), rest[..n - 1]), At(Below(y, tokens[0]), rest[..n - 1]), lengths);
        }
      }
    }
  }

  // ----- pointers of children -----

  lemma {:induction false} DigitsAreKept(s: string)
    requires forall i :: 0 <= i < |s| ==> IsDigit(s[i])
    ensures Escape(s) == s
  {
    if s != "" {
      assert IsDigit(s[0]);
      assert s == [s[0]] + s[1..];
      EscapeCons(s[0], s[1..]);
      forall i | 0 <= i < |s[1..]|
        ensures IsDigit(s[1..][i])
      {
        assert s[1..][i] == s[i + 1];
      }
      DigitsAreKept(s[1..]);
    }
  }

  lemma ChildPointers(pre: seq<string>, key: string, i: nat)
    ensures Member(Encode(pre), key) == Encode(pre + [key])
    ensures Index(Encode(pre), i) == Encode(pre + [Decimal(i)])
  {
    EncodeSnoc(pre, key);
    EncodeSnoc(pre, Decimal(i));
    DigitsAreKept(Decimal(i));
  }

  /** What lies below one child does not lie below another, nor is it the parent. */
  lemma NextToken(pre: seq<string>, tokens: seq<string>, token: string)
    requires AtOrBelow(Encode(pre + tokens), Encode(pre + [token]))
    ensures tokens != [] && tokens[0] == token
  {
    AtOrBelowIsPrefix(pre + tokens, pre + [token]);
    assert (pre + tokens)[|pre|] == token;
  }

  // ----- the suite's diff -----

  /** A member is reported, or something in it. */
  predicate MemberReported(a: Json, b: Json, pre: seq<string>, tokens: seq<string>)
    requires a.JObj? && b.JObj? && tokens != []
  {
    if tokens[0] in a.members && tokens[0] in b.members
    then Encode(pre + tokens) in Changed(a.members[tokens[0]], b.members[tokens[0]], Encode(pre + [tokens[0]]))
    else (tokens[0] in a.members || tokens[0] in b.members) && |tokens| == 1
  }

  lemma ReportedMember(a: Json, b: Json, pre: seq<string>, tokens: seq<string>)
    requires a.JObj? && b.JObj? && Encode(pre + tokens) in Changed(a, b, Encode(pre))
    ensures tokens != [] && MemberReported(a, b, pre, tokens)
  {
    var m, n, p := a.members, b.members, Encode(pre + tokens);
    if key :| key in m && key in n && p in Changed(m[key], n[key], Member(Encode(pre), key)) {
      ChildPointers(pre, key, 0);
      ChangedBelow(m[key], n[key], Encode(pre + [key]), p);
      NextToken(pre, tokens, key);
    } else {
      var key :| key in m.Keys + n.Keys && (key !in m || key !in n) && p == Member(Encode(pre), key);
      ChildPointers(pre, key, 0);
      EncodeInjective(pre + tokens, pre + [key]);
      assert (pre + tokens)[|pre|] == key && |tokens| == 1;
    }
  }

  lemma MemberIsReported(a: Json, b: Json, pre: seq<string>, tokens: seq<string>)
    requires a.JObj? && b.JObj? && tokens != [] && MemberReported(a, b, pre, tokens)
    ensures Encode(pre + tokens) in Changed(a, b, Encode(pre))
  {
    ChildPointers(pre, tokens[0], 0);
    if |tokens| == 1 {
      assert [tokens[0]] == tokens;
    }
  }

  lemma ObjectPlace(a: Json, b: Json, pre: seq<string>, tokens: seq<string>)
    requires a.JObj? && b.JObj?
    ensures Encode(pre + tokens) in Changed(a, b, Encode(pre)) <==> tokens != [] && MemberReported(a, b, pre, tokens)
  {
    if Encode(pre + tokens) in Changed(a, b, Encode(pre)) {
      ReportedMember(a, b, pre, tokens);
    } else if tokens != [] && MemberReported(a, b, pre, tokens) {
      MemberIsReported(a, b, pre, tokens);
    }
  }

  lemma ArrayPlace(a: Json, b: Json, pre: seq<string>, tokens: seq<string>)
    requires a.JArr? && b.JArr? && |a.items| == |b.items|
    ensures Encode(pre + tokens) in Changed(a, b, Encode(pre))
       <==> tokens != [] && exists i: nat ::
              i < |a.items| && tokens[0] == Decimal(i)
              && Encode(pre + tokens) in Changed(a.items[i], b.items[i], Encode(pre + [tokens[0]]))
  {
    var xs, ys, p := a.items, b.items, Encode(pre + tokens);
    if p in Changed(a, b, Encode(pre)) {
      var i: nat :| i < |xs| && p in Changed(xs[i], ys[i], Index(Encode(pre), i));
      ChildPointers(pre, "", i);
      ChangedBelow(xs[i], ys[i], Encode(pre + [Decimal(i)]), p);
      NextToken(pre, tokens, Decimal(i));
    }
    if tokens != [] {
      if i: nat :| i < |xs| && tokens[0] == Decimal(i) && p in Changed(xs[i], ys[i], Encode(pre + [tokens[0]])) {
        ChildPointers(pre, "", i);
      }
    }
  }

  // ----- the mocks' diff -----

  /** A member is reported, or something in it. */
  predicate MemberReportedElementwise(a: Json, b: Json, pre: seq<string>, tokens: seq<string>)
    requires a.JObj? && b.JObj? && tokens != []
  {
    if tokens[0] in a.members && tokens[0] in b.members
    then Encode(pre + tokens) in ChangedElementwise(a.members[tokens[0]], b.members[tokens[0]], Encode(pre + [tokens[0]]))
    else (tokens[0] in a.members || tokens[0] in b.members) && |tokens| == 1
  }

  lemma ReportedMemberElementwise(a: Json, b: Json, pre: seq<string>, tokens: seq<string>)
    requires a.JObj? && b.JObj? && Encode(pre + tokens) in ChangedElementwise(a, b, Encode(pre))
    ensures tokens != [] && MemberReportedElementwise(a, b, pre, tokens)
  {
    var m, n, p := a.members, b.members, Encode(pre + tokens);
    if key :| key in m && key in n && p in ChangedElementwise(m[key], n[key], Member(Encode(pre), key)) {
      ChildPointers(pre, key, 0);
      ElementwiseBelow(m[key], n[key], Encode(pre + [key]), p);
      NextToken(pre, tokens, key);
    } else {
      var key :| key in m.Keys + n.Keys && (key !in m || key !in n) && p == Member(Encode(pre), key);
      ChildPointers(pre, key, 0);
      EncodeInjective(pre + tokens, pre + [key]);
      assert (pre + tokens)[|pre|] == key && |tokens| == 1;
    }
  }

  lemma MemberIsReportedElementwise(a: Json, b: Json, pre: seq<string>, tokens: seq<string>)
    requires a.JObj? && b.JObj? && tokens != [] && MemberReportedElementwise(a, b, pre, tokens)
    ensures Encode(pre + tokens) in ChangedElementwise(a, b, Encode(pre))
  {
    ChildPointers(pre, tokens[0], 0);
    if |tokens| == 1 {
      assert [tokens[0]] == tokens;
    }
  }

  lemma ObjectPlaceElementwise(a: Json, b: Json, pre: seq<string>, tokens: seq<string>)
    requires a.JObj? && b.JObj?
    ensures Encode(pre + tokens) in ChangedElementwise(a, b, Encode(pre)) <==> tokens != [] && MemberReportedElementwise(a, b, pre, tokens)
  {
    if Encode(pre + tokens) in ChangedElementwise(a, b, Encode(pre)) {
      ReportedMemberElementwise(a, b, pre, tokens);
    } else if tokens != [] && MemberReportedElementwise(a, b, pre, tokens) {
      MemberIsReportedElementwise(a, b, pre, tokens);
    }
  }

  /** An element is reported, or something in it. */
  predicate ElementReported(a: Json, b: Json, pre: seq<string>, tokens: seq<string>, i: nat)
    requires a.JArr? && b.JArr? && tokens != []
  {
    && tokens[0] == Decimal(i)
    && if i < |a.items| && i < |b.items|
       then Encode(pre + tokens) in ChangedElementwise(a.items[i], b.items[i], Encode(pre + [tokens[0]]))
       else (i < |a.items| || i < |b.items|) && |tokens| == 1
  }

  lemma ReportedElement(a: Json, b: Json, pre: seq<string>, tokens: seq<string>) returns (i: nat)
    requires a.JArr? && b.JArr? && Encode(pre + tokens) in ChangedElementwise(a, b, Encode(pre))
    ensures tokens != [] && ElementReported(a, b, pre, tokens, i)
  {
    var xs, ys, p := a.items, b.items, Encode(pre + tokens);
    if k: nat :| k < |xs| && k < |ys| && p in ChangedElementwise(xs[k], ys[k], Index(Encode(pre), k)) {
      i := k;
      ChildPointers(pre, "", i);
      ElementwiseBelow(xs[i], ys[i], Encode(pre + [Decimal(i)]), p);
      NextToken(pre, tokens, Decimal(i));
    } else {
      i :| i < |xs| + |ys| && (|xs| <= i < |ys| || |ys| <= i < |xs|) && p == Index(Encode(pre), i);
      ChildPointers(pre, "", i);
      EncodeInjective(pre + tokens, pre + [Decimal(i)]);
      assert (pre + tokens)[|pre|] == Decimal(i) && |tokens| == 1;
    }
  }

  lemma ElementIsReported(a: Json, b: Json, pre: seq<string>, tokens: seq<string>, i: nat)
    requires a.JArr? && b.JArr? && tokens != [] && ElementReported(a, b, pre, tokens, i)
    ensures Encode(pre + tokens) in ChangedElementwise(a, b, Encode(pre))
  {
    ChildPointers(pre, "", i);
    if |tokens| == 1 {
      assert [tokens[0]] == tokens;
    }
  }

  // ----- the diffs are the places where documents part first -----

  lemma PartNone(tokens: seq<string>, lengths: bool)
    ensures !PartFirst(None, None, tokens, lengths)
  {
    AtNone(tokens);
  }

  lemma PartOne(x: Option<Json>, y: Option<Json>, tokens: seq<string>, lengths: bool)
    requires x.Some? != y.Some?
    ensures PartFirst(x, y, tokens, lengths) <==> tokens == []
  {
    if tokens != [] {
      PartFirstStep(x, y, tokens, lengths);
    }
  }

  lemma BelowArray(items: seq<Json>, token: string, i: nat)
    requires token == Decimal(i)
    ensures Below(Some(JArr(items)), token) == if i < |items| then Some(items[i]) else None
  {
    ArrayIndexIsNumeral(token, |items|, false, i);
    if i >= |items| && ArrayIndexOf(token, |items|, false).Some? {
      var j := ArrayIndexOf(token, |items|, false).value;
      ArrayIndexIsNumeral(token, |items|, false, j);
      DecimalInjective(i, j);
    }
  }

  lemma BelowArrayNone(items: seq<Json>, token: string)
    requires forall i: nat :: i < |items| ==> token != Decimal(i)
    ensures Below(Some(JArr(items)), token) == None
  {
    if ArrayIndexOf(token, |items|, false).Some? {
      ArrayIndexIsNumeral(token, |items|, false, ArrayIndexOf(token, |items|, false).value);
    }
  }

  /** The suite reports exactly the outermost places where two documents part. */
  lemma {:induction false} ChangedIsWherePart(a: Json, b: Json, pre: seq<string>, tokens: seq<string>)
    ensures Encode(pre + tokens) in Changed(a, b, Encode(pre)) <==> PartFirst(Some(a), Some(b), tokens, true)
    decreases |tokens|
  {
    EncodeInjective(pre + tokens, pre);
    if tokens == [] {
      assert pre + tokens == pre;
      if a.JObj? && b.JObj? {
        ObjectPlace(a, b, pre, tokens);
      } else if a.JArr? && b.JArr? && |a.items| == |b.items| {
        ArrayPlace(a, b, pre, tokens);
      }
    } else {
      assert |pre + tokens| > |pre|;
      PartFirstStep(Some(a), Some(b), tokens, true);
      if !Part(Some(a), Some(b), true) {
        var rest, token := tokens[1..], tokens[0];
        assert (pre + [token]) + rest == pre + tokens;
        if a.JObj? {
          ObjectPlace(a, b, pre, tokens);
          if token in a.members && token in b.members {
            ChangedIsWherePart(a.members[token], b.members[token], pre + [token], rest);
          } else if token in a.members || token in b.members {
            PartOne(Below(Some(a), token), Below(Some(b), token), rest, true);
          } else {
            PartNone(rest, true);
          }
        } else if a.JArr? {
          ArrayPlace(a, b, pre, tokens);
          if i: nat :| i < |a.items| && token == Decimal(i) {
            BelowArray(a.items, token, i);
            BelowArray(b.items, token, i);
            ChangedIsWherePart(a.items[i], b.items[i], pre + [token], rest);
            SameIndex(token, i);
          } else {
            BelowArrayNone(a.items, token);
            BelowArrayNone(b.items, token);
            PartNone(rest, true);
          }
        } else {
          assert Below(Some(a), token) == None && Below(Some(b), token) == None;
          PartNone(rest, true);
        }
      }
    }
  }

  lemma SameIndex(token: string, i: nat)
    requires token == Decimal(i)
    ensures forall j: nat :: token == Decimal(j) ==> j == i
  {
    forall j: nat | token == Decimal(j)
      ensures j == i
    {
      DecimalInjective(i, j);
    }
  }

  /** And the mocks the same, but that lengths do not count. */
  lemma {:induction false} ElementwiseIsWherePart(a: Json, b: Json, pre: seq<string>, tokens: seq<string>)
    ensures Encode(pre + tokens) in ChangedElementwise(a, b, Encode(pre)) <==> PartFirst(Some(a), Some(b), tokens, false)
    decreases |tokens|, 1
  {
    EncodeInjective(pre + tokens, pre);
    if tokens == [] {
      assert pre + tokens == pre;
      if a.JObj? && b.JObj? {
        ObjectPlaceElementwise(a, b, pre, tokens);
      } else if a.JArr? && b.JArr? && Encode(pre) in ChangedElementwise(a, b, Encode(pre)) {
        var i := ReportedElement(a, b, pre, tokens);
      }
    } else {
      assert |pre + tokens| > |pre|;
      PartFirstStep(Some(a), Some(b), tokens, false);
      if !Part(Some(a), Some(b), false) {
        var rest, token := tokens[1..], tokens[0];
        assert (pre + [token]) + rest == pre + tokens;
        if a.JObj? {
          ObjectPlaceElementwise(a, b, pre, tokens);
          if token in a.members && token in b.members {
            ElementwiseIsWherePart(a.members[token], b.members[token], pre + [token], rest);
          } else if token in a.members || token in b.members {
            PartOne(Below(Some(a), token), Below(Some(b), token), rest, false);
          } else {
            PartNone(rest, false);
          }
        } else if a.JArr? {
          ElementWhere(a, b, pre, tokens);
        } else {
          assert Below(Some(a), token) == None && Below(Some(b), token) == None;
          PartNone(rest, false);
        }
      }
    }
  }

  lemma {:induction false} ElementWhere(a: Json, b: Json, pre: seq<string>, tokens: seq<string>)
    requires a.JArr? && b.JArr? && tokens != []
    ensures Encode(pre + tokens) in ChangedElementwise(a, b, Encode(pre))
       <==> PartFirst(Below(Some(a), tokens[0]), Below(Some(b), tokens[0]), tokens[1..], false)
    decreases |tokens|, 0
  {
    var rest, token := tokens[1..], tokens[0];
    assert (pre + [token]) + rest == pre + tokens;
    if i: nat :| i < |a.items| + |b.items| && token == Decimal(i) {
      BelowArray(a.items, token, i);
      BelowArray(b.items, token, i);
      if i < |a.items| && i < |b.items| {
        ElementwiseIsWherePart(a.items[i], b.items[i], pre + [token], rest);
      } else if i < |a.items| || i < |b.items| {
        PartOne(Below(Some(a), token), Below(Some(b), token), rest, false);
      } else {
        PartNone(rest, false);
      }
      if Encode(pre + tokens) in ChangedElementwise(a, b, Encode(pre)) {
        var j := ReportedElement(a, b, pre, tokens);
        DecimalInjective(i, j);
      } else if ElementReported(a, b, pre, tokens, i) {
        ElementIsReported(a, b, pre, tokens, i);
      }
    } else {
      BelowArrayNone(a.items, token);
      BelowArrayNone(b.items, token);
      PartNone(rest, false);
      if Encode(pre + tokens) in ChangedElementwise(a, b, Encode(pre)) {
        var j := ReportedElement(a, b, pre, tokens);
      }
    }
  }

  // ----- every reported pointer is one -----

  lemma Longer(pre: seq<string>, token: string, rest: seq<string>)
    ensures Encode((pre + [token]) + rest) == Encode(pre + ([token] + rest))
  {
    assert (pre + [token]) + rest == pre + ([token] + rest);
  }

  lemma {:induction false} ChangedIsEncoded(a: Json, b: Json, pre: seq<string>, p: string) returns (tokens: seq<string>)
    requires p in Changed(a, b, Encode(pre))
    ensures p == Encode(pre + tokens)
    decreases a
  {
    if !SameType(a, b) || p == Encode(pre) {
      tokens := [];
      assert pre + tokens == pre;
    } else if a.JObj? {
      var m, n := a.members, b.members;
      if key :| key in m && key in n && p in Changed(m[key], n[key], Member(Encode(pre), key)) {
        ChildPointers(pre, key, 0);
        var rest := ChangedIsEncoded(m[key], n[key], pre + [key], p);
        tokens := [key] + rest;
        Longer(pre, key, rest);
      } else {
        var key :| key in m.Keys + n.Keys && p == Member(Encode(pre), key);
        ChildPointers(pre, key, 0);
        tokens := [key];
      }
    } else {
      var i: nat :| i < |a.items| && p in Changed(a.items[i], b.items[i], Index(Encode(pre), i));
      ChildPointers(pre, "", i);
      var rest := ChangedIsEncoded(a.items[i], b.items[i], pre + [Decimal(i)], p);
      tokens := [Decimal(i)] + rest;
      Longer(pre, Decimal(i), rest);
    }
  }

  lemma {:induction false} ElementwiseIsEncoded(a: Json, b: Json, pre: seq<string>, p: string) returns (tokens: seq<string>)
    requires p in ChangedElementwise(a, b, Encode(pre))
    ensures p == Encode(pre + tokens)
    decreases a, 1
  {
    if !SameType(a, b) || p == Encode(pre) {
      tokens := [];
      assert pre + tokens == pre;
    } else if a.JObj? {
      tokens := MemberIsEncoded(a, b, pre, p);
    } else {
      tokens := ElementIsEncoded(a, b, pre, p);
    }
  }

  lemma {:induction false} MemberIsEncoded(a: Json, b: Json, pre: seq<string>, p: string) returns (tokens: seq<string>)
    requires a.JObj? && b.JObj? && p in ChangedElementwise(a, b, Encode(pre))
    ensures p == Encode(pre + tokens)
    decreases a, 0
  {
    var m, n := a.members, b.members;
    if key :| key in m && key in n && p in ChangedElementwise(m[key], n[key], Member(Encode(pre), key)) {
      ChildPointers(pre, key, 0);
      var rest := ElementwiseIsEncoded(m[key], n[key], pre + [key], p);
      tokens := [key] + rest;
      Longer(pre, key, rest);
    } else {
      var key :| key in m.Keys + n.Keys && p == Member(Encode(pre), key);
      ChildPointers(pre, key, 0);
      tokens := [key];
    }
  }

  lemma {:induction false} ElementIsEncoded(a: Json, b: Json, pre: seq<string>, p: string) returns (tokens: seq<string>)
    requires a.JArr? && b.JArr? && p in ChangedElementwise(a, b, Encode(pre))
    ensures p == Encode(pre + tokens)
    decreases a, 0
  {
    var xs, ys := a.items, b.items;
    if i: nat :| i < |xs| && i < |ys| && p in ChangedElementwise(xs[i], ys[i], Index(Encode(pre), i)) {
      ChildPointers(pre, "", i);
      var rest := ElementwiseIsEncoded(xs[i], ys[i], pre + [Decimal(i)], p);
      tokens := [Decimal(i)] + rest;
      Longer(pre, Decimal(i), rest);
    } else {
      var i: nat :| i < |xs| + |ys| && p == Index(Encode(pre), i);
      ChildPointers(pre, "", i);
      tokens := [Decimal(i)];
    }
  }

  // ----- the edit checks -----

  /** Some editable path leads here or to something above. */
  predicate Editable(tokens: seq<string>, editable: seq<string>) {
    exists n :: 0 <= n <= |tokens| && Encode(tokens[..n]) in editable
  }

  lemma EditableIsAllowed(tokens: seq<string>, editable: seq<string>)
    ensures Editable(tokens, editable) <==> exists allowed :: allowed in editable && AtOrBelow(Encode(tokens), allowed)
    ensures Editable(tokens, editable) <==> PathIsEditable(Encode(tokens), editable)
  {
    var p := Encode(tokens);
    if n :| 0 <= n <= |tokens| && Encode(tokens[..n]) in editable {
      PrefixIsAbove(tokens, n);
      assert AtOrBelow(p, Encode(tokens[..n]));
    }
    if allowed :| allowed in editable && AtOrBelow(p, allowed) {
      var n := AboveIsPrefix(tokens, allowed);
    }
    if PathIsEditable(p, editable) {
      var allowed :| allowed in editable && (p == allowed || allowed == "" || allowed + "/" <= p);
      PrefixIsAbove(tokens, 0);
      assert tokens[..0] == [] && Encode([]) == "";
      var n := AboveIsPrefix(tokens, allowed);
    }
  }

  /** The suite allows an edit exactly when everything that parts first, lengths
      of arrays included, is at or below an editable path. */
  lemma SuiteEditMeans(base: Json, candidate: Json, editable: seq<string>)
    ensures SuiteEditAllowed(base, candidate, editable)
       <==> forall tokens :: PartFirst(Some(base), Some(candidate), tokens, true) ==> Editable(tokens, editable)
  {
    assert Encode([]) == "";
    if SuiteEditAllowed(base, candidate, editable) {
      forall tokens | PartFirst(Some(base), Some(candidate), tokens, true)
        ensures Editable(tokens, editable)
      {
        ChangedIsWherePart(base, candidate, [], tokens);
        assert [] + tokens == tokens;
        EditableIsAllowed(tokens, editable);
      }
    }
    if forall tokens :: PartFirst(Some(base), Some(candidate), tokens, true) ==> Editable(tokens, editable) {
      forall p | p in Changed(base, candidate, "")
        ensures exists allowed :: allowed in editable && AtOrBelow(p, allowed)
      {
        var tokens := ChangedIsEncoded(base, candidate, [], p);
        assert [] + tokens == tokens;
        ChangedIsWherePart(base, candidate, [], tokens);
        EditableIsAllowed(tokens, editable);
      }
    }
  }

  /** And the mocks exactly when everything that parts first otherwise is. */
  lemma MockEditMeans(base: Json, candidate: Json, editable: seq<string>)
    ensures MockEditAllowed(base, candidate, editable)
       <==> forall tokens :: PartFirst(Some(base), Some(candidate), tokens, false) ==> Editable(tokens, editable)
  {
    assert Encode([]) == "";
    if MockEditAllowed(base, candidate, editable) {
      forall tokens | PartFirst(Some(base), Some(candidate), tokens, false)
        ensures Editable(tokens, editable)
      {
        ElementwiseIsWherePart(base, candidate, [], tokens);
        assert [] + tokens == tokens;
        EditableIsAllowed(tokens, editable);
      }
    }
    if forall tokens :: PartFirst(Some(base), Some(candidate), tokens, false) ==> Editable(tokens, editable) {
      forall p | p in ChangedElementwise(base, candidate, "")
        ensures PathIsEditable(p, editable)
      {
        var tokens := ElementwiseIsEncoded(base, candidate, [], p);
        assert [] + tokens == tokens;
        ElementwiseIsWherePart(base, candidate, [], tokens);
        EditableIsAllowed(tokens, editable);
      }
    }
  }
}
