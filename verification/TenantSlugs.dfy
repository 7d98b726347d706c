/** Finding a tenant slug that is not taken. */
module TenantSlugs {
  import opened Text

  const MAX_LENGTH := 64

  function StripDashes(s: string): (r: string)
    ensures |r| <= |s| && (r != [] ==> r[|r| - 1] != '-') && r <= s
    decreases |s|
  {
    if s != [] && s[|s| - 1] == '-' then StripDashes(s[..|s| - 1]) else s
  }

  function SuffixText(k: nat): string { "-" + NatText(k) }

  /** The base, shortened to leave room for the suffix. */
  function Trimmed(base: string, k: nat): (r: string)
    ensures r != []
  {
    var room := if MAX_LENGTH - |SuffixText(k)| > 1 then MAX_LENGTH - |SuffixText(k)| else 1;
    var t := StripDashes(if |base| <= room then base else base[..room]);
    if t == [] then "tenant" else t
  }

  function Candidate(base: string, k: nat): string { Trimmed(base, k) + SuffixText(k) }

  lemma {:induction false} DashesStripped(s: string)
    ensures forall i :: |StripDashes(s)| <= i < |s| ==> s[i] == '-'
  {
    if s != [] && s[|s| - 1] == '-' {
      DashesStripped(s[..|s| - 1]);
    }
  }

  /**
   * A candidate is a beginning of the base, a dash and the number.  The beginning leaves room for the suffix in 64
   * characters, keeps at least one, and drops dashes at its end; when nothing is left it is the word tenant.
   */
  lemma CandidateExactly(base: string, k: nat) returns (head: string)
    ensures Candidate(base, k) == head + "-" + NatText(k)
    ensures var room := if |NatText(k)| < 63 then 63 - |NatText(k)| else 1;
      var shown := if |base| <= room then base else base[..room];
      if forall c :: c in shown ==> c == '-' then head == "tenant"
      else head != "" && head <= shown && head[|head| - 1] != '-'
           && forall i :: |head| <= i < |shown| ==> shown[i] == '-'
  {
    hide NatText, StripDashes;
    head := Trimmed(base, k);
    var room := if |NatText(k)| < 63 then 63 - |NatText(k)| else 1;
    var shown := if |base| <= room then base else base[..room];
    DashesStripped(shown);
    var t := StripDashes(shown);
    if t == [] {
      assert forall c :: c in shown ==> c == '-';
    } else {
      assert t[|t| - 1] == shown[|t| - 1] && shown[|t| - 1] in shown;
    }
  }

  lemma CandidateInjective(base: string, i: nat, j: nat)
    requires Candidate(base, i) == Candidate(base, j)
    ensures i == j
  {
    hide Split, Trimmed;
    assert Candidate(base, i) == Trimmed(base, i) + ['-'] + NatText(i);
    assert Candidate(base, j) == Trimmed(base, j) + ['-'] + NatText(j);
    SplitLast(Trimmed(base, i), NatText(i), '-');
    SplitLast(Trimmed(base, j), NatText(j), '-');
    NatTextInjective(i, j);
  }

  /** The candidates with suffix 2 to `k`. */
  function Tried(base: string, k: nat): set<string> {
    if k < 2 then {} else Tried(base, k - 1) + {Candidate(base, k)}
  }

  lemma {:induction false} TriedAre(base: string, k: nat, s: string)
    ensures s in Tried(base, k) <==> exists j: nat :: 2 <= j <= k && s == Candidate(base, j)
  {
    hide Candidate;
    if k >= 2 {
      TriedAre(base, k - 1, s);
    }
  }

  lemma {:induction false} TriedCount(base: string, k: nat)
    requires k >= 1
    ensures |Tried(base, k)| == k - 1
  {
    hide Candidate;
    if k >= 2 {
      TriedCount(base, k - 1);
      TriedAre(base, k - 1, Candidate(base, k));
      if j: nat :| 2 <= j <= k - 1 && Candidate(base, k) == Candidate(base, j) {
        CandidateInjective(base, k, j);
      }
    }
  }

  lemma Smaller(a: set<string>, b: set<string>)
    requires a <= b
    ensures |a| <= |b|
  {
    assert b == a + (b - a);
  }

  /** The loop ends: the candidates differ from each other, so one of them is free among finitely many slugs. */
  method EnsureUniqueTenantSlug(slugs: set<string>, base: string) returns (candidate: string, ghost suffix: nat)
    ensures candidate !in slugs
    ensures base !in slugs ==> candidate == base
    ensures base in slugs ==> suffix >= 2 && candidate == Candidate(base, suffix)
                              && forall j: nat :: 2 <= j < suffix ==> Candidate(base, j) in slugs
    ensures suffix <= |slugs| + 2
  {
    hide Candidate, Tried;
    candidate := base;
    var n := 1;
    assert Tried(base, 1) == {} by { NothingTried(base); }
    while candidate in slugs
      invariant n >= 1 && candidate == (if n == 1 then base else Candidate(base, n)) && (n > 1 ==> base in slugs)
      invariant Tried(base, n) <= slugs + {candidate}
      invariant forall j: nat :: 2 <= j < n ==> Candidate(base, j) in slugs
      invariant n <= |slugs| + 2
      decreases |slugs| + 2 - n
    {
      TriedCount(base, n);
      Smaller(Tried(base, n), slugs);
      NextTried(base, n + 1);
      n := n + 1;
      candidate := Candidate(base, n);
    }
    suffix := n;
  }

  lemma NothingTried(base: string)
    ensures Tried(base, 1) == {}
  {}

  lemma NextTried(base: string, k: nat)
    requires k >= 2
    ensures Tried(base, k) == Tried(base, k - 1) + {Candidate(base, k)}
  {}

  /** Suffixed slugs respect the length limit as long as the suffix itself leaves room. */
  lemma CandidateFits(base: string, k: nat)
    requires |SuffixText(k)| <= MAX_LENGTH - 6
    ensures |Candidate(base, k)| <= MAX_LENGTH
  {}
}
