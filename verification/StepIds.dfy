/** step_id_for of worker/regulator_agent/savedsearches.py: narrow, unique step identifiers. */
module StepIds {
  import opened Text

  const MAX_BASE := 56

  predicate Allowed(c: char) {
    'a' <= c <= 'z' || '0' <= c <= '9' || c == '_' || c == '-'
  }

  ghost predicate StepId(s: string) {
    s != "" && forall c :: c in s ==> Allowed(c)
  }

  /** Every run of characters outside the set becomes one dash. */
  function Collapse(s: string, inRun: bool): (t: string)
    ensures forall c :: c in t ==> Allowed(c)
  {
    if s == "" then ""
    else if Allowed(s[0]) then [s[0]] + Collapse(s[1..], false)
    else (if inRun then "" else "-") + Collapse(s[1..], true)
  }

  function LeftDashes(s: string): (t: string)
    ensures forall c :: c in t ==> c in s
  {
    if s != "" && s[0] == '-' then LeftDashes(s[1..]) else s
  }

  function RightDashes(s: string): (t: string)
    ensures forall c :: c in t ==> c in s
  {
    if s != "" && s[|s| - 1] == '-' then RightDashes(s[..|s| - 1]) else s
  }

  function Base(name: string): (base: string)
    ensures StepId(base)
  {
    var dashed := RightDashes(LeftDashes(Collapse(Lower(Strip(name)), false)));
    var short := if |dashed| > MAX_BASE then dashed[..MAX_BASE] else dashed;
    assert forall c :: c in short ==> c in dashed;
    if short == "" then "search" else short
  }

  /** The candidates in the order they are tried: the base, then base-2, base-3, ... */
  function Candidate(base: string, n: nat): (id: string)
    requires StepId(base)
    ensures StepId(id)
  {
    if n == 0 then base else base + "-" + Decimal(n + 1)
  }

  lemma CandidatesDiffer(base: string, m: nat, n: nat)
    requires StepId(base) && Candidate(base, m) == Candidate(base, n)
    ensures m == n
  {
    var a, b := Candidate(base, m), Candidate(base, n);
    if m > 0 && n > 0 {
      assert a[|base| + 1..] == Decimal(m + 1);
      assert b[|base| + 1..] == Decimal(n + 1);
      DecimalInjective(m + 1, n + 1);
    }
  }

  lemma {:induction false} SubsetSize(a: set<string>, b: set<string>)
    requires a <= b
    ensures |a| <= |b|
  {
    if x :| x in a {
      SubsetSize(a - {x}, b - {x});
    }
  }

  /** The first candidate not yet taken; `n` says how many were. Ends because candidates never repeat. */
  method StepIdFor(name: string, taken: set<string>) returns (id: string, after: set<string>, ghost n: nat)
    ensures id == Candidate(Base(name), n)
    ensures forall m :: 0 <= m < n ==> Candidate(Base(name), m) in taken
    ensures id !in taken && after == taken + {id}
    ensures n <= |taken|
  {
    hide Base, Decimal, Allowed;
    var base := Base(name);
    id := base;
    var counter := 2;
    n := 0;
    ghost var tried: set<string> := {};
    while id in taken
      invariant counter == n + 2
      invariant id == Candidate(base, n)
      invariant tried <= taken && |tried| == n
      invariant forall m :: 0 <= m < n ==> Candidate(base, m) in tried
      invariant forall t :: t in tried ==> exists m :: 0 <= m < n && t == Candidate(base, m)
      decreases |taken| - n
    {
      if id in tried {
        ghost var m :| 0 <= m < n && id == Candidate(base, m);
        CandidatesDiffer(base, m, n);
      }
      tried := tried + {id};
      SubsetSize(tried, taken);
      n := n + 1;
      id := base + "-" + Decimal(counter);
      counter := counter + 1;
    }
    SubsetSize(tried, taken);
    after := taken + {id};
  }

  ghost predicate IsIdFor(id: string, name: string) {
    exists n: nat :: id == Candidate(Base(name), n)
  }

  /** A file's worth of names: every id is well formed, made from its name, new, and its own. */
  method StepIdsFor(names: seq<string>, taken: set<string>) returns (ids: seq<string>, after: set<string>)
    ensures |ids| == |names|
    ensures forall i :: 0 <= i < |ids| ==> StepId(ids[i]) && IsIdFor(ids[i], names[i]) && ids[i] !in taken
    ensures forall i, j :: 0 <= i < j < |ids| ==> ids[i] != ids[j]
    ensures forall x :: x in after <==> x in taken || x in ids
  {
    ids, after := [], taken;
    for k := 0 to |names|
      invariant |ids| == k
      invariant forall i :: 0 <= i < k ==> StepId(ids[i]) && IsIdFor(ids[i], names[i]) && ids[i] !in taken
      invariant forall i, j :: 0 <= i < j < k ==> ids[i] != ids[j]
      invariant forall x :: x in after <==> x in taken || x in ids
    {
      var id, next := NextId(names[k], after);
      ids, after := ids + [id], next;
    }
  }

  method NextId(name: string, taken: set<string>) returns (id: string, after: set<string>)
    ensures StepId(id) && IsIdFor(id, name) && id !in taken && after == taken + {id}
  {
    ghost var n;
    id, after, n := StepIdFor(name, taken);
  }

  // ------------------------------------------------------------ what an id keeps

  function KeptOf(c: char): string {
    if Allowed(c) && c != '-' then [c] else ""
  }

  function Kept(s: string): string {
    if s == "" then "" else KeptOf(s[0]) + Kept(s[1..])
  }

  lemma {:induction false} CollapseKeeps(s: string, inRun: bool)
    ensures Kept(Collapse(s, inRun)) == Kept(s)
  {
    hide Allowed;
    if s != "" {
      CollapseKeeps(s[1..], !Allowed(s[0]));
      var t, rest := Collapse(s, inRun), Collapse(s[1..], !Allowed(s[0]));
      assert t == rest || t[1..] == rest;
    }
  }

  lemma {:induction false} KeptConcat(a: string, b: string)
    ensures Kept(a + b) == Kept(a) + Kept(b)
  {
    hide KeptOf;
    if a == "" {
      assert a + b == b;
    } else {
      var head, tail := KeptOf(a[0]), Kept(a[1..]);
      KeptConcat(a[1..], b);
      assert (a + b)[1..] == a[1..] + b;
      assert head + (tail + Kept(b)) == (head + tail) + Kept(b);
    }
  }

  lemma {:induction false} LeftDashesKeep(s: string)
    ensures Kept(LeftDashes(s)) == Kept(s)
    ensures LeftDashes(s) == "" || LeftDashes(s)[0] != '-'
  {
    if s != "" && s[0] == '-' {
      LeftDashesKeep(s[1..]);
    }
  }

  lemma {:induction false} RightDashesKeep(s: string)
    ensures Kept(RightDashes(s)) == Kept(s)
    ensures RightDashes(s) <= s
  {
    if s != "" && s[|s| - 1] == '-' {
      RightDashesKeep(s[..|s| - 1]);
      KeptConcat(s[..|s| - 1], "-");
      assert s == s[..|s| - 1] + "-";
      assert Kept("-") == "";
    }
  }

  /** An id is made of its name's own letters, digits and underscores, in order and in lower case, as
    * many as 56 characters hold; it is "search" where there are none. */
  lemma BaseKeeps(name: string)
    ensures var kept := Kept(Lower(Strip(name)));
      && |Base(name)| <= 56
      && (kept == "" ==> Base(name) == "search")
      && (kept != "" ==> Kept(Base(name)) <= kept && Base(name)[0] == kept[0])
      && (kept != "" && |Base(name)| < 56 ==> Kept(Base(name)) == kept)
  {
    hide Lower, Strip;
    var text := Lower(Strip(name));
    var collapsed := Collapse(text, false);
    var left := LeftDashes(collapsed);
    var dashed := RightDashes(left);
    CollapseKeeps(text, false);
    LeftDashesKeep(collapsed);
    RightDashesKeep(left);
    if dashed != "" {
      assert dashed[0] == left[0] && dashed[0] in collapsed;
      if |dashed| > MAX_BASE {
        KeptConcat(dashed[..MAX_BASE], dashed[MAX_BASE..]);
        assert dashed == dashed[..MAX_BASE] + dashed[MAX_BASE..];
      }
    }
  }
}
