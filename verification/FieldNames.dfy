/**
  The names of message fields in the bag loader: slashes become underscores and underscores are
  doubled. The inverse reads the mangled name from its end.
 */
module FieldNames {

  function Reverse(s: string): (r: string)
    ensures |r| == |s|
    ensures forall i :: 0 <= i < |s| ==> r[i] == s[|s| - 1 - i]
  {
    if s == [] then [] else Reverse(s[1..]) + [s[0]]
  }

  /** `s.replace(old, new)` for an `old` of one character. */
  function Replace(s: string, old_: char, new_: string): string {
    if s == [] then [] else (if s[0] == old_ then new_ else [s[0]]) + Replace(s[1..], old_, new_)
  }

  /** `s.replace(c + c, new)`: pairs are taken from the left. */
  function ReplacePair(s: string, c: char, new_: char): string {
    if |s| < 2 then s
    else if s[0] == s[1] == c then [new_] + ReplacePair(s[2..], c, new_)
    else [s[0]] + ReplacePair(s[1..], c, new_)
  }

  function Mangled(s: string): string {
    Replace(Replace(s, '_', "__"), '/', "_")
  }

  function Unmangle(s: string): string {
    Replace(Replace(Reverse(ReplacePair(Reverse(s), '_', '~')), '_', "/"), '~', "_")
  }

  datatype Outcome = Returned(name: string) | AssertionFailed

  /** `mangle`, with the assertion that ends it. */
  function Mangle(s: string): Outcome {
    if Unmangle(Mangled(s)) == s then Returned(Mangled(s)) else AssertionFailed
  }

  /** Slashes are neither doubled nor preceded by an underscore, and there is no tilde. */
  predicate Plain(s: string) {
    && (forall i :: 0 <= i < |s| ==> s[i] != '~')
    && (forall i :: 0 <= i < |s| - 1 ==> s[i + 1] == '/' ==> s[i] != '_' && s[i] != '/')
  }

  // ---------------------------------------------------------------------------------------------
  // The same from the end of the string

  /** What mangling does to a reversed name. */
  function Code(u: string): string {
    if u == [] then []
    else (if u[0] == '_' then "__" else if u[0] == '/' then "_" else [u[0]]) + Code(u[1..])
  }

  /** What the last two replacements of the inverse do to a character. */
  function Final(c: char): char {
    if c == '_' then '/' else if c == '~' then '_' else c
  }

  function FinalAll(t: string): (r: string)
    ensures |r| == |t|
    ensures forall i :: 0 <= i < |t| ==> r[i] == Final(t[i])
  {
    seq(|t|, i requires 0 <= i < |t| => Final(t[i]))
  }

  lemma {:induction false} ReplaceConcat(s: string, t: string, c: char, new_: string)
    ensures Replace(s + t, c, new_) == Replace(s, c, new_) + Replace(t, c, new_)
  {
    if s == [] {
      assert s + t == t;
    } else {
      assert (s + t)[1..] == s[1..] + t;
      ReplaceConcat(s[1..], t, c, new_);
    }
  }

  /** Mangling, read from the end. */
  lemma {:induction false} MangledReversed(s: string)
    ensures Reverse(Mangled(s)) == Code(Reverse(s))
  {
    if s != [] {
      var c := if s[0] == '_' then "__" else if s[0] == '/' then "_" else [s[0]];
      var rest := Replace(s[1..], '_', "__");
      ReplaceConcat(if s[0] == '_' then "__" else [s[0]], rest, '/', "_");
      assert Replace(if s[0] == '_' then "__" else [s[0]], '/', "_") == c by {
        assert "__"[1..] == "_" && "_"[1..] == "" && [s[0]][1..] == [];
        assert Replace("_", '/', "_") == "_";
      }
      assert Mangled(s) == c + Mangled(s[1..]);
      assert Reverse(c + Mangled(s[1..])) == Reverse(Mangled(s[1..])) + c by {
        assert forall i :: 0 <= i < |c| ==> c[i] == c[|c| - 1 - i];
      }
      MangledReversed(s[1..]);
      CodeConcat(Reverse(s[1..]), [s[0]]);
      assert [s[0]][1..] == [];
    }
  }

  lemma {:induction false} CodeConcat(u: string, v: string)
    ensures Code(u + v) == Code(u) + Code(v)
  {
    if u == [] {
      assert u + v == v;
    } else {
      assert (u + v)[1..] == u[1..] + v;
      CodeConcat(u[1..], v);
    }
  }

  lemma {:induction false} FinalIsReplace(t: string)
    ensures Replace(Replace(t, '_', "/"), '~', "_") == FinalAll(t)
  {
    if t == [] {
      assert FinalAll(t) == [];
    } else {
      hide Final;
      FinalIsReplace(t[1..]);
      var first := if t[0] == '_' then "/" else [t[0]];
      ReplaceConcat(first, Replace(t[1..], '_', "/"), '~', "_");
      FirstReplaced(t[0]);
      assert FinalAll(t) == [Final(t[0])] + FinalAll(t[1..]);
    }
  }

  lemma FirstReplaced(c: char)
    ensures Replace([c], '_', "/") == if c == '_' then "/" else [c]
    ensures Replace(if c == '_' then "/" else [c], '~', "_") == [Final(c)]
  {
    assert [c][1..] == [] && "/"[1..] == [];
  }

  /** The inverse, read from the end. */
  lemma UnmangleReversed(s: string)
    ensures Unmangle(s) == Reverse(FinalAll(ReplacePair(Reverse(s), '_', '~')))
  {
    var t := ReplacePair(Reverse(s), '_', '~');
    FinalIsReplace(Reverse(t));
    assert FinalAll(Reverse(t)) == Reverse(FinalAll(t));
  }

  /** A reversed plain name. */
  predicate PlainReversed(u: string) {
    u != [] ==>
      && u[0] != '~'
      && (u[0] == '/' && |u| > 1 ==> u[1] != '_' && u[1] != '/')
      && PlainReversed(u[1..])
  }

  lemma {:induction false} PlainReversedExact(u: string)
    ensures PlainReversed(u) <==> Plain(Reverse(u))
  {
    if u != [] {
      var s, t := Reverse(u), Reverse(u[1..]);
      PlainReversedExact(u[1..]);
      assert s == t + [u[0]];
      if Plain(s) {
        assert forall i :: 0 <= i < |t| ==> t[i] == s[i];
        assert s[|s| - 1] == u[0];
        if |u| > 1 {
          var i := |s| - 2;
          assert s[i + 1] == u[0] && s[i] == u[1];
        }
      }
      if PlainReversed(u) {
        forall i | 0 <= i < |s| - 1 && s[i + 1] == '/'
          ensures s[i] != '_' && s[i] != '/'
        {
          if i + 1 < |t| {
            assert t[i + 1] == s[i + 1] && t[i] == s[i];
          } else {
            assert s[i + 1] == u[0] && s[i] == u[1];
          }
        }
      }
    }
  }

  /** Decoding undoes coding on reversed plain names, and on no others. */
  lemma {:induction false} DecodeExact(u: string)
    ensures FinalAll(ReplacePair(Code(u), '_', '~')) == u <==> PlainReversed(u)
  {
    if u == [] {
      assert FinalAll(ReplacePair(Code(u), '_', '~')) == [];
    } else {
      var rest := Code(u[1..]);
      var d, e := ReplacePair(Code(u), '_', '~'), ReplacePair(rest, '_', '~');
      DecodeExact(u[1..]);
      if u[0] == '_' {
        assert Code(u)[2..] == rest;
        DecodeCons(d, '~', e, u);
      } else if u[0] == '/' {
        assert Code(u)[1..] == rest;
        if |u| > 1 && (u[1] == '_' || u[1] == '/') {
          assert rest[0] == '_' && Code(u)[..2] == "__";
          assert d[0] == '~' && FinalAll(d)[0] == '_';
        } else {
          if |u| > 1 { assert rest[0] == u[1]; } else { assert rest == []; }
          assert d == ['_'] + e;
          DecodeCons(d, '_', e, u);
        }
      } else {
        assert Code(u)[1..] == rest;
        assert d == [u[0]] + e;
        DecodeCons(d, u[0], e, u);
      }
    }
  }

  lemma DecodeCons(d: string, c: char, e: string, u: string)
    requires u != [] && d == [c] + e
    ensures FinalAll(d) == u <==> Final(c) == u[0] && FinalAll(e) == u[1..]
  {
    assert FinalAll(d) == [Final(c)] + FinalAll(e);
    assert u == [u[0]] + u[1..];
  }

  // ---------------------------------------------------------------------------------------------
  // The round trip

  lemma ReverseTwice(s: string)
    ensures Reverse(Reverse(s)) == s
  {
  }

  /** Unmangling undoes mangling exactly on plain names; so these are the names that mangle accepts. */
  lemma RoundTrip(s: string)
    ensures Unmangle(Mangled(s)) == s <==> Plain(s)
    ensures Mangle(s).Returned? <==> Plain(s)
  {
    var u := Reverse(s);
    ReverseTwice(s);
    MangledReversed(s);
    UnmangleReversed(Mangled(s));
    var v := FinalAll(ReplacePair(Code(u), '_', '~'));
    assert Unmangle(Mangled(s)) == Reverse(v);
    ReverseTwice(v);
    DecodeExact(u);
    PlainReversedExact(u);
  }

  lemma {:induction false} MangledIsCode(s: string)
    ensures Mangled(s) == Code(s)
  {
    if s != [] {
      MangledIsCode(s[1..]);
      var first := if s[0] == '_' then "__" else [s[0]];
      ReplaceConcat(first, Replace(s[1..], '_', "__"), '/', "_");
      assert "__"[1..] == "_" && "_"[1..] == "" && [s[0]][1..] == [];
      assert Replace("_", '/', "_") == "_";
      assert Replace(first, '/', "_") == if s[0] == '_' then "__" else if s[0] == '/' then "_" else [s[0]];
    }
  }

  /** What mangle returns: each underscore doubled, each slash an underscore, all else as it is, in order; and the
      name comes back from it. */
  lemma MangleExact(s: string)
    ensures Mangle(s) == if Plain(s) then Returned(Code(s)) else AssertionFailed
    ensures Plain(s) ==> Unmangle(Code(s)) == s
  {
    RoundTrip(s);
    MangledIsCode(s);
  }

  /** No two names that mangle accepts get the same mangled name. */
  lemma Injective(s: string, t: string)
    requires Mangle(s).Returned? && Mangle(s) == Mangle(t)
    ensures s == t
  {
    RoundTrip(s);
    RoundTrip(t);
  }
}
