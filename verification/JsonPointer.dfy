/** RFC 6901 pointers: section 3 (syntax) and section 4 (escapes). */
module JsonPointer {
  import opened Wrappers
  import opened Text

  // ----- tokens -----

  /** s.replace(a, r) for one character `a`. */
  function ReplaceChar(s: string, a: char, r: string): string {
    if s == "" then "" else (if s[0] == a then r else [s[0]]) + ReplaceChar(s[1..], a, r)
  }

  /** s.replace(ab, r) for two different characters. */
  function ReplacePair(s: string, a: char, b: char, r: char): string {
    if |s| >= 2 && s[0] == a && s[1] == b then [r] + ReplacePair(s[2..], a, b, r)
    else if s == "" then ""
    else [s[0]] + ReplacePair(s[1..], a, b, r)
  }

  function Escape(token: string): string {
    ReplaceChar(ReplaceChar(token, '~', "~0"), '/', "~1")
  }

  function Unescape(token: string): string {
    ReplacePair(ReplacePair(token, '~', '1', '/'), '~', '0', '~')
  }

  /** Every '~' starts one of the two defined escapes. */
  predicate WellEscaped(s: string) {
    forall i :: 0 <= i < |s| && s[i] == '~' ==> i + 1 < |s| && (s[i + 1] == '0' || s[i + 1] == '1')
  }

  function EscapeChar(c: char): string {
    if c == '~' then "~0" else if c == '/' then "~1" else [c]
  }

  lemma EscapeCons(c: char, t: string)
    ensures Escape([c] + t) == EscapeChar(c) + Escape(t)
  {
    var u := ReplaceChar(t, '~', "~0");
    assert ([c] + t)[1..] == t;
    if c == '~' {
      assert ReplaceChar([c] + t, '~', "~0") == "~0" + u == ['~'] + (['0'] + u);
      assert (['~'] + (['0'] + u))[1..] == ['0'] + u && (['0'] + u)[1..] == u;
      assert ReplaceChar(['0'] + u, '/', "~1") == ['0'] + Escape(t);
    } else {
      assert ReplaceChar([c] + t, '~', "~0") == [c] + u;
      assert ([c] + u)[1..] == u;
    }
  }

  /** What Unescape does with one escaped character at the front. */
  lemma UnescapeCons(c: char, rest: string)
    ensures Unescape(EscapeChar(c) + rest) == [c] + Unescape(rest)
  {
    var once := ReplacePair(rest, '~', '1', '/');
    var s := EscapeChar(c) + rest;
    if c == '~' {
      assert s[1..] == ['0'] + rest && (['0'] + rest)[1..] == rest;
      assert ReplacePair(s, '~', '1', '/') == ['~'] + (['0'] + once) == "~0" + once;
      assert ("~0" + once)[2..] == once;
    } else if c == '/' {
      assert s[2..] == rest;
      assert ([c] + once)[1..] == once;
    } else {
      assert s[1..] == rest;
      assert ([c] + once)[1..] == once;
    }
  }

  lemma {:induction false} UnescapeEscape(token: string)
    ensures Unescape(Escape(token)) == token
  {
    if token != "" {
      UnescapeEscape(token[1..]);
      assert token == [token[0]] + token[1..];
      EscapeCons(token[0], token[1..]);
      UnescapeCons(token[0], Escape(token[1..]));
    }
  }

  lemma {:induction false} EscapeIsWellEscaped(token: string)
    ensures WellEscaped(Escape(token)) && '/' !in Escape(token)
  {
    if token != "" {
      EscapeIsWellEscaped(token[1..]);
      assert token == [token[0]] + token[1..];
      EscapeCons(token[0], token[1..]);
      WellEscapedCons(token[0], Escape(token[1..]));
    }
  }

  lemma WellEscapedCons(c: char, rest: string)
    requires WellEscaped(rest) && '/' !in rest
    ensures WellEscaped(EscapeChar(c) + rest) && '/' !in EscapeChar(c) + rest
  {
    var s := EscapeChar(c) + rest;
    forall i | 0 <= i < |s| && s[i] == '~'
      ensures i + 1 < |s| && (s[i + 1] == '0' || s[i + 1] == '1')
    {
      if i >= |EscapeChar(c)| {
        assert s[i] == rest[i - |EscapeChar(c)|];
      }
    }
  }

  /** Decoding loses nothing exactly on the tokens the grammar allows. */
  lemma {:induction false} EscapeUnescape(s: string)
    requires '/' !in s
    ensures Escape(Unescape(s)) == s <==> WellEscaped(s)
  {
    EscapeIsWellEscaped(Unescape(s));
    if WellEscaped(s) && s != "" {
      var c, n := if s[0] != '~' then s[0] else if s[1] == '0' then '~' else '/', if s[0] == '~' then 2 else 1;
      assert s == EscapeChar(c) + s[n..];
      assert WellEscaped(s[n..]) by {
        assert forall i :: 0 <= i < |s| - n ==> s[n..][i] == s[n + i];
      }
      EscapeUnescape(s[n..]);
      UnescapeCons(c, s[n..]);
      EscapeCons(c, Unescape(s[n..]));
    }
  }

  // ----- pointers -----

  /** The string the diff builds while it descends through `tokens`. */
  function Encode(tokens: seq<string>): string {
    if tokens == [] then "" else Encode(tokens[..|tokens| - 1]) + "/" + Escape(tokens[|tokens| - 1])
  }

  function UnescapeAll(parts: seq<string>): (tokens: seq<string>)
    ensures |tokens| == |parts|
    ensures forall i :: 0 <= i < |parts| ==> tokens[i] == Unescape(parts[i])
  {
    seq(|parts|, i requires 0 <= i < |parts| => Unescape(parts[i]))
  }

  /** The suite's `_decode_json_pointer`: None where it raises. */
  function Decode(pointer: string): Option<seq<string>> {
    if pointer == "" then Some([])
    else if pointer[0] != '/' then None
    else Some(UnescapeAll(Split(pointer[1..])))
  }

  /** The pointer grammar of RFC 6901, section 3. */
  predicate ValidPointer(pointer: string) {
    pointer == "" || (pointer[0] == '/' && forall part :: part in Split(pointer[1..]) ==> WellEscaped(part))
  }

  function EscapeAll(tokens: seq<string>): (parts: seq<string>)
    ensures |parts| == |tokens|
    ensures forall i :: 0 <= i < |parts| ==> parts[i] == Escape(tokens[i])
  {
    seq(|tokens|, i requires 0 <= i < |tokens| => Escape(tokens[i]))
  }

  lemma {:induction false} JoinSnoc(parts: seq<string>, last: string)
    requires |parts| > 0
    ensures Join(parts + [last]) == Join(parts) + "/" + last
  {
    assert (parts + [last])[1..] == parts[1..] + [last];
    if |parts| > 1 {
      JoinSnoc(parts[1..], last);
    }
  }

  lemma {:induction false} EncodeIsJoin(tokens: seq<string>)
    requires tokens != []
    ensures Encode(tokens) == "/" + Join(EscapeAll(tokens))
  {
    var front, last := tokens[..|tokens| - 1], tokens[|tokens| - 1];
    assert EscapeAll(tokens) == EscapeAll(front) + [Escape(last)];
    if front == [] {
      assert EscapeAll(tokens) == [Escape(last)];
    } else {
      EncodeIsJoin(front);
      JoinSnoc(EscapeAll(front), Escape(last));
    }
  }

  /** Tokens survive encoding and decoding. */
  lemma DecodeEncode(tokens: seq<string>)
    ensures Decode(Encode(tokens)) == Some(tokens)
    ensures ValidPointer(Encode(tokens))
  {
    if tokens != [] {
      EncodeIsJoin(tokens);
      var parts := EscapeAll(tokens);
      forall i | 0 <= i < |tokens|
        ensures '/' !in parts[i] && WellEscaped(parts[i]) && Unescape(parts[i]) == tokens[i]
      {
        EscapeIsWellEscaped(tokens[i]);
        UnescapeEscape(tokens[i]);
      }
      SplitJoin(parts);
      assert Encode(tokens)[1..] == Join(parts);
      assert UnescapeAll(parts) == tokens;
    }
  }

  /** A pointer the suite can decode is reproduced by the encoder exactly when
      it is grammatical; the suite's decoder also accepts others ("/~2"). */
  lemma EncodeDecode(pointer: string)
    requires Decode(pointer).Some?
    ensures Encode(Decode(pointer).value) == pointer <==> ValidPointer(pointer)
  {
    if pointer != "" {
      var parts := Split(pointer[1..]);
      var tokens := UnescapeAll(parts);
      EncodeIsJoin(tokens);
      JoinSplit(pointer[1..]);
      assert pointer == "/" + pointer[1..];
      forall i | 0 <= i < |parts|
        ensures EscapeAll(tokens)[i] == parts[i] <==> WellEscaped(parts[i])
      {
        EscapeUnescape(parts[i]);
      }
      if ValidPointer(pointer) {
        assert EscapeAll(tokens) == parts;
      } else if Encode(tokens) == pointer {
        DecodeEncode(tokens);
        assert false;
      }
    }
  }

  // ----- at or below -----

  /** How both edit checks compare a changed path with an allowed one. */
  predicate AtOrBelow(path: string, root: string) {
    path == root || root + "/" <= path
  }

  lemma AtOrBelowTransitive(p: string, q: string, r: string)
    requires AtOrBelow(p, q) && AtOrBelow(q, r)
    ensures AtOrBelow(p, r)
  {}

  lemma ChildIsBelow(p: string, pointer: string, part: string)
    requires AtOrBelow(p, pointer + "/" + part)
    ensures AtOrBelow(p, pointer)
  {
    assert AtOrBelow(pointer + "/" + part, pointer);
  }

  lemma EncodeSnoc(tokens: seq<string>, last: string)
    ensures Encode(tokens + [last]) == Encode(tokens) + "/" + Escape(last)
  {
    assert (tokens + [last])[..|tokens|] == tokens;
  }

  lemma EncodeInjective(a: seq<string>, b: seq<string>)
    ensures Encode(a) == Encode(b) <==> a == b
  {
    DecodeEncode(a);
    DecodeEncode(b);
  }

  lemma {:induction false} PrefixIsAbove(tokens: seq<string>, n: nat)
    requires n <= |tokens|
    ensures AtOrBelow(Encode(tokens), Encode(tokens[..n]))
  {
    if n == |tokens| {
      assert tokens[..n] == tokens;
    } else {
      var front := tokens[..|tokens| - 1];
      PrefixIsAbove(front, n);
      assert front[..n] == tokens[..n];
      AtOrBelowTransitive(Encode(tokens), Encode(front), Encode(tokens[..n]));
    }
  }

  lemma LastSlash(front: string, last: string, root: string)
    requires '/' !in last && root + "/" <= front + "/" + last
    ensures AtOrBelow(front, root)
  {
    var s := front + "/" + last;
    assert s[|root|] == (root + "/")[|root|] == '/';
    assert forall i :: |front| < i < |s| ==> s[i] in last;
    assert root == s[..|root|] == front[..|root|];
    if |root| < |front| {
      assert root + "/" == s[..|root| + 1] == front[..|root| + 1];
    }
  }

  lemma {:induction false} AboveIsPrefix(tokens: seq<string>, root: string) returns (n: nat)
    requires AtOrBelow(Encode(tokens), root)
    ensures n <= |tokens| && root == Encode(tokens[..n])
  {
    if root == Encode(tokens) {
      n := |tokens|;
      assert tokens[..n] == tokens;
    } else {
      var front, last := tokens[..|tokens| - 1], tokens[|tokens| - 1];
      EscapeIsWellEscaped(last);
      LastSlash(Encode(front), Escape(last), root);
      n := AboveIsPrefix(front, root);
      assert front[..n] == tokens[..n];
    }
  }

  /** A place lies at or below another exactly when its tokens start with the
      other's. */
  lemma AtOrBelowIsPrefix(a: seq<string>, b: seq<string>)
    ensures AtOrBelow(Encode(a), Encode(b)) <==> b <= a
  {
    if AtOrBelow(Encode(a), Encode(b)) {
      var n := AboveIsPrefix(a, Encode(b));
      EncodeInjective(a[..n], b);
      assert b == a[..n];
    }
    if b <= a {
      PrefixIsAbove(a, |b|);
      assert a[..|b|] == b;
    }
  }
}
