/** `BuildSection`: one quadrant of a collaborative build and its dispensing cursor. */
module Sections {
  import opened Wrappers
  import opened Blocks
  import JavaMath

  /** `id` is the quadrant number 0..3 (the `BuildSection.yLevel` field), `name` its label,
      `blocks` the quadrant's placements bottom to top, and `cursor` the value of the
      atomic counter `nextBlockIndex`, which only ever grows. */
  datatype Section = Section(id: nat, name: string, blocks: seq<Placement>, cursor: nat)

  function Total(s: Section): nat {
    |s.blocks|
  }

  /** The counter read back saturates at the section size. */
  function Placed(s: Section): (n: nat)
    ensures n <= Total(s)
    ensures n == s.cursor || (n == Total(s) < s.cursor)
  {
    JavaMath.Min(s.cursor, |s.blocks|)
  }

  predicate IsComplete(s: Section) {
    s.cursor >= |s.blocks|
  }

  /** The placements handed out so far: always a prefix of `blocks`. */
  function Dispensed(s: Section): (d: seq<Placement>)
    ensures |d| == Placed(s)
    ensures d <= s.blocks
    ensures IsComplete(s) <==> d == s.blocks
  {
    s.blocks[..Placed(s)]
  }

  /** One `getNextBlock` call: an atomic `getAndIncrement` of the cursor, then a bounds check. */
  function Next(s: Section): (r: (Section, Option<Placement>))
    ensures r.0.id == s.id && r.0.name == s.name && r.0.blocks == s.blocks
    ensures r.0.cursor > s.cursor
    ensures r.1.Some? <==> !IsComplete(s)
    ensures r.1.Some? ==> Placed(r.0) == Placed(s) + 1 && r.1.value == s.blocks[Placed(s)]
    ensures r.1.None? ==> Placed(r.0) == Placed(s) && IsComplete(r.0)
    ensures Dispensed(r.0) == Dispensed(s) + (if r.1.Some? then [r.1.value] else [])
  {
    var index := s.cursor;
    var s' := s.(cursor := s.cursor + 1);
    if index < |s.blocks| then (s', Some(s.blocks[index])) else (s', None)
  }

  /** `Next`, and when that finds the section drained, `Next` once more: the retry the
      coordinator performs in `getNextBlock`'s `block == null` branch. The second call
      moves the cursor again but never changes the answer. */
  function NextWithRetry(s: Section): (r: (Section, Option<Placement>))
    ensures r.1 == Next(s).1
    ensures r.0.id == s.id && r.0.name == s.name && r.0.blocks == s.blocks
    ensures r.0.cursor == s.cursor + (if r.1.Some? then 1 else 2)
    ensures r.1.Some? ==> Placed(r.0) == Placed(s) + 1 && r.1.value == s.blocks[Placed(s)]
    ensures Dispensed(r.0) == Dispensed(s) + (if r.1.Some? then [r.1.value] else [])
  {
    var (s1, block) := Next(s);
    if block.Some? then (s1, block) else Next(s1)
  }

  /** `k` successive calls of `Next`, with the answers in call order. */
  function Calls(s: Section, k: nat): (r: (Section, seq<Option<Placement>>))
    ensures |r.1| == k
    decreases k
  {
    if k == 0 then (s, [])
    else
      var (s1, a) := Next(s);
      var (s2, rest) := Calls(s1, k - 1);
      (s2, [a] + rest)
  }

  /** Calls change nothing but the cursor, which advances by exactly k. */
  lemma {:induction false} CallsFrame(s: Section, k: nat)
    ensures var s' := Calls(s, k).0;
      s'.blocks == s.blocks && s'.id == s.id && s'.name == s.name && s'.cursor == s.cursor + k
    decreases k
  {
    if k > 0 {
      CallsFrame(Next(s).0, k - 1);
    }
  }

  /** The i-th of k calls answers `blocks[cursor + i]` while that index exists and `None`
      afterwards. */
  lemma {:induction false} CallsAnswers(s: Section, k: nat)
    ensures forall i :: 0 <= i < k ==>
      Calls(s, k).1[i] == (if s.cursor + i < |s.blocks| then Some(s.blocks[s.cursor + i]) else None)
    decreases k
  {
    if k > 0 {
      var (s1, a) := Next(s);
      CallsAnswers(s1, k - 1);
      assert s1 == s.(cursor := s.cursor + 1);
      var rest := Calls(s1, k - 1).1;
      assert forall j :: 0 <= j < k - 1 ==>
        rest[j] == (if s1.cursor + j < |s1.blocks| then Some(s1.blocks[s1.cursor + j]) else None);
      assert Calls(s, k).1 == [a] + rest;
      forall i | 0 <= i < k
        ensures Calls(s, k).1[i] == (if s.cursor + i < |s.blocks| then Some(s.blocks[s.cursor + i]) else None)
      {
        if i > 0 {
          assert Calls(s, k).1[i] == rest[i - 1];
          assert rest[i - 1] == (if s1.cursor + (i - 1) < |s1.blocks| then Some(s1.blocks[s1.cursor + (i - 1)]) else None);
          assert s1.cursor + (i - 1) == s.cursor + i;
        } else {
          assert a == (if s.cursor < |s.blocks| then Some(s.blocks[s.cursor]) else None);
        }
      }
    }
  }

  /** What k calls hand out extends the dispensed prefix. */
  lemma {:induction false} CallsDispense(s: Section, k: nat)
    ensures var (s', rs) := Calls(s, k); Dispensed(s') == Dispensed(s) + Somes(rs)
    decreases k
  {
    if k > 0 {
      var (s1, a) := Next(s);
      CallsDispense(s1, k - 1);
      var (s2, rest) := Calls(s1, k - 1);
      assert Somes([a] + rest) == (if a.Some? then [a.value] else []) + Somes(rest) by {
        assert ([a] + rest)[1..] == rest;
      }
    }
  }

  /** The i-th of k calls answers `blocks[cursor + i]` while that index exists and `None`
      afterwards, the cursor has advanced by exactly k, and what was handed out extends
      the dispensed prefix: no placement is handed out twice. */
  lemma CallsAnswerInIndexOrder(s: Section, k: nat)
    ensures var (s', rs) := Calls(s, k);
      && s'.blocks == s.blocks && s'.id == s.id && s'.name == s.name
      && s'.cursor == s.cursor + k
      && (forall i :: 0 <= i < k ==>
            rs[i] == (if s.cursor + i < |s.blocks| then Some(s.blocks[s.cursor + i]) else None))
      && Dispensed(s') == Dispensed(s) + Somes(rs)
  {
    CallsFrame(s, k);
    CallsAnswers(s, k);
    CallsDispense(s, k);
  }

  /** From a fresh section, k calls hand out exactly `blocks[..min(k, |blocks|)]`, and the
      section is complete iff k reaches its size. */
  lemma FreshSectionDrains(s: Section, k: nat)
    requires s.cursor == 0
    ensures var (s', rs) := Calls(s, k);
      && Somes(rs) == s.blocks[..JavaMath.Min(k, |s.blocks|)]
      && Placed(s') == JavaMath.Min(k, |s.blocks|)
      && (IsComplete(s') <==> k >= |s.blocks|)
  {
    CallsAnswerInIndexOrder(s, k);
  }

  /** Ground-up order: when `blocks` is sorted by height, so is every batch of answers. */
  lemma AnswersAscendInHeight(s: Section, k: nat)
    requires forall i, j :: 0 <= i <= j < |s.blocks| ==> s.blocks[i].pos.y <= s.blocks[j].pos.y
    ensures var vs := Somes(Calls(s, k).1);
      forall i, j :: 0 <= i <= j < |vs| ==> vs[i].pos.y <= vs[j].pos.y
  {
    CallsAnswerInIndexOrder(s, k);
    var (s', rs) := Calls(s, k);
    var vs := Somes(rs);
    assert Dispensed(s') == Dispensed(s) + vs;
    forall i, j | 0 <= i <= j < |vs|
      ensures vs[i].pos.y <= vs[j].pos.y
    {
      assert vs[i] == Dispensed(s')[Placed(s) + i];
      assert vs[j] == Dispensed(s')[Placed(s) + j];
    }
  }
}
