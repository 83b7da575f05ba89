/** The cleaner applied to the model's reply before parsing it:
    `text.replace(/```json|```/g, '').trim()`. The global regular-expression
    replace scans left to right for the leftmost match; at each position the
    alternative "```json" is tried before "```"; matches never overlap. */
module Fences {
  import opened Text

  const Fence: string := "```"
  const JsonFence: string := "```json"

  /** A triple backtick starts at index `i` of `s`. */
  predicate FenceAt(s: string, i: int) {
    0 <= i && i + 3 <= |s| && s[i] == '`' && s[i + 1] == '`' && s[i + 2] == '`'
  }

  /** "```json" starts at the front of `s`. */
  predicate OpensJsonFence(s: string) {
    FenceAt(s, 0) && |s| >= 7 && s[3] == 'j' && s[4] == 's' && s[5] == 'o' && s[6] == 'n'
  }

  /** `s` starts with two backticks. */
  predicate TwoTicks(s: string) {
    |s| >= 2 && s[0] == '`' && s[1] == '`'
  }

  /** A triple backtick occurs somewhere in `s`. */
  predicate HasFence(s: string) {
    exists i | 0 <= i <= |s| :: FenceAt(s, i)
  }

  /** The character tests above are the string tests of the regular
      expression. */
  lemma PatternsAgree(s: string, i: int)
    ensures FenceAt(s, i) <==> OccursAt(s, Fence, i)
    ensures OpensJsonFence(s) <==> OccursAt(s, JsonFence, 0)
  {
    if OccursAt(s, Fence, i) {
      assert s[i] == s[i..i + 3][0] && s[i + 1] == s[i..i + 3][1] && s[i + 2] == s[i..i + 3][2];
    }
    if FenceAt(s, i) {
      assert s[i..i + 3] == [s[i], s[i + 1], s[i + 2]];
    }
    if OccursAt(s, JsonFence, 0) {
      var w := s[..7];
      assert s[0] == w[0] && s[1] == w[1] && s[2] == w[2] && s[3] == w[3];
      assert s[4] == w[4] && s[5] == w[5] && s[6] == w[6];
    }
    if OpensJsonFence(s) {
      assert s[..7] == [s[0], s[1], s[2], s[3], s[4], s[5], s[6]];
    }
  }

  /** `HasFence` is the source's "contains ```". */
  lemma HasFenceIffContains(s: string)
    ensures HasFence(s) <==> Contains(s, Fence)
  {
    if HasFence(s) {
      var i :| 0 <= i <= |s| && FenceAt(s, i);
      PatternsAgree(s, i);
    }
    if Contains(s, Fence) {
      var i :| 0 <= i <= |s| && OccursAt(s, Fence, i);
      PatternsAgree(s, i);
    }
  }

  /** The replace step: every match of /```json|```/ removed. */
  function StripFences(t: string): (r: string)
    ensures |r| <= |t|
    decreases |t|
  {
    if |t| == 0 then []
    else if OpensJsonFence(t) then StripFences(t[7..])
    else if FenceAt(t, 0) then StripFences(t[3..])
    else [t[0]] + StripFences(t[1..])
  }

  /** No triple backtick survives the replace step, even one that a removal
      brings together: a kept backtick is followed by at most one more. */
  lemma {:induction false} StripFencesLeavesNoFence(t: string)
    ensures var r := StripFences(t);
      && (|t| > 0 && t[0] != '`' ==> |r| > 0 && r[0] == t[0])
      && (TwoTicks(r) ==> TwoTicks(t))
      && !HasFence(r)
    decreases |t|
  {
    if |t| == 0 {
    } else if OpensJsonFence(t) {
      StripFencesLeavesNoFence(t[7..]);
    } else if FenceAt(t, 0) {
      StripFencesLeavesNoFence(t[3..]);
    } else {
      var u := t[1..];
      StripFencesLeavesNoFence(u);
      var rest := StripFences(u);
      assert TwoTicks(u) ==> u[0] == t[1] && u[1] == t[2];
      ConsNoFence(t[0], rest);
      assert StripFences(t) == [t[0]] + rest;
      assert |t| > 1 && t[1] != '`' ==> u[0] == t[1];
    }
  }

  /** A character put before a fence-free text makes no fence, unless it is
      a backtick and the text starts with two more. */
  lemma ConsNoFence(c: char, rest: string)
    requires !HasFence(rest)
    requires c == '`' ==> !TwoTicks(rest)
    ensures !HasFence([c] + rest)
  {
    var s := [c] + rest;
    forall i | 0 <= i <= |s|
      ensures !FenceAt(s, i)
    {
      if i > 0 {
        assert !FenceAt(rest, i - 1);
      }
    }
  }

  /** A character other than a backtick put after a fence-free text makes
      no fence. */
  lemma SnocNoFence(x: string, c: char)
    requires !HasFence(x) && c != '`'
    ensures !HasFence(x + [c])
  {
    var s := x + [c];
    forall i | 0 <= i <= |s|
      ensures !FenceAt(s, i)
    {
      assert !FenceAt(x, i);
    }
  }

  /** An infix of a fence-free text is fence-free. */
  lemma NoFenceInInfix(t: string, lo: nat, hi: nat)
    requires lo <= hi <= |t| && !HasFence(t)
    ensures !HasFence(t[lo..hi])
  {
    var s := t[lo..hi];
    forall i | 0 <= i <= |s|
      ensures !FenceAt(s, i)
    {
      assert !FenceAt(t, lo + i);
    }
  }

  /** The whole cleaner: strip the fences, then trim. */
  function Clean(t: string): (r: string)
    ensures !HasFence(r)
    ensures Trimmed(r)
  {
    var s := StripFences(t);
    StripFencesLeavesNoFence(t);
    var r := Trim(s);
    NoFenceInInfix(s, LeadLen(s), LeadLen(s) + |r|);
    r
  }

  /** Text without a triple backtick passes the replace step unchanged. */
  lemma {:induction false} StripFencesIdentity(t: string)
    requires !HasFence(t)
    ensures StripFences(t) == t
    decreases |t|
  {
    if |t| > 0 {
      assert !FenceAt(t, 0);
      NoFenceInInfix(t, 1, |t|);
      assert t[1..|t|] == t[1..];
      StripFencesIdentity(t[1..]);
    }
  }

  /** Cleaning is idempotent. */
  lemma CleanIdempotent(t: string)
    ensures Clean(Clean(t)) == Clean(t)
  {
    var c := Clean(t);
    StripFencesIdentity(c);
    TrimIdempotent(StripFences(t));
  }

  /** A fence-free prefix that does not end in a backtick cannot take part
      in a match, so the replace step keeps it and continues after it. */
  lemma {:induction false} StripFencesKeepsPrefix(s: string, rest: string)
    requires !HasFence(s)
    requires |s| == 0 || s[|s| - 1] != '`'
    ensures StripFences(s + rest) == s + StripFences(rest)
    decreases |s|
  {
    if |s| == 0 {
      assert s + rest == rest;
      assert s + StripFences(rest) == StripFences(rest);
    } else {
      var tail := s[1..];
      NoFenceInInfix(s, 1, |s|);
      assert s[1..|s|] == tail;
      StripFencesKeepsPrefix(tail, rest);
      KeepsPrefixStep(s, rest);
    }
  }

  /** One step of the induction above: the first character of the prefix is
      kept, and the rest is handled as the shorter prefix. */
  lemma KeepsPrefixStep(s: string, rest: string)
    requires !HasFence(s) && |s| > 0 && s[|s| - 1] != '`'
    requires StripFences(s[1..] + rest) == s[1..] + StripFences(rest)
    ensures StripFences(s + rest) == s + StripFences(rest)
  {
    var t := s + rest;
    var tail := s[1..];
    assert !FenceAt(s, 0);
    assert !FenceAt(t, 0);
    assert t[1..] == tail + rest;
    var x := StripFences(rest);
    assert StripFences(t) == [s[0]] + (tail + x);
    assert [s[0]] + (tail + x) == ([s[0]] + tail) + x;
    assert s == [s[0]] + tail;
  }

  /** The replace step on a ```json block keeps exactly the text between
      the two fences, given that text is fence-free and ends with a
      newline. */
  lemma StripJsonBlock(inner: string)
    requires !HasFence(inner) && |inner| > 0 && inner[|inner| - 1] == '\n'
    ensures StripFences(JsonFence + inner + Fence) == inner
  {
    var w := JsonFence + (inner + Fence);
    assert OpensJsonFence(w);
    assert StripFences(w) == StripFences(w[7..]);
    assert w[7..] == inner + Fence;
    StripFencesKeepsPrefix(inner, Fence);
    assert FenceAt(Fence, 0) && !OpensJsonFence(Fence);
    assert StripFences(Fence) == StripFences(Fence[3..]) == [];
    assert StripFences(w) == inner + [];
    assert JsonFence + inner + Fence == w;
  }

  /** A payload wrapped as a ```json block cleans to the same text as the
      bare payload, which is the payload trimmed. */
  lemma CleanUnwrapsFence(p: string)
    requires !HasFence(p)
    ensures Clean(JsonFence + "\n" + p + "\n" + Fence) == Clean(p)
    ensures Clean(p) == Trim(p)
  {
    StripFencesIdentity(p);
    ConsNoFence('\n', p);
    var inner := "\n" + p + "\n";
    assert inner == (['\n'] + p) + ['\n'];
    SnocNoFence(['\n'] + p, '\n');
    StripJsonBlock(inner);
    assert JsonFence + "\n" + p + "\n" + Fence == JsonFence + inner + Fence;
    assert AllWhitespace("\n");
    TrimIgnoresPadding("\n", p, "\n");
  }
}
