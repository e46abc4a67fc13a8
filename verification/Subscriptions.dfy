/**
 What a connection holds its patterns in: the glob tree as written, or the multiset that
 the tree with documented counts refines. The broker is proved for both.
 */
module Subscriptions {
  import opened Patterns
  import opened Counts
  import opened Operations
  import opened Written

  datatype Subs = AsWritten(tree: Trie) | Counted(stored: multiset<string>)

  ghost predicate SubsValid(subs: Subs) {
    subs.AsWritten? ==> WellFormed(subs.tree)
  }

  function NoSubs(counted: bool): Subs {
    if counted then Subs.Counted(multiset{}) else AsWritten(EMPTY)
  }

  ghost function SubInsert(subs: Subs, pattern: string): Subs {
    match subs
    case AsWritten(tree) => AsWritten(Exec(tree, Insert(pattern)))
    case Counted(stored) => Subs.Counted(stored + multiset{pattern})
  }

  ghost function SubRemove(subs: Subs, pattern: string): Subs {
    match subs
    case AsWritten(tree) => AsWritten(Exec(tree, Remove(pattern)))
    case Counted(stored) => Subs.Counted(stored - multiset{pattern})
  }

  ghost predicate SubCheck(subs: Subs, topic: string) {
    match subs
    case AsWritten(tree) => Check(tree, topic)
    case Counted(stored) => exists p :: p in stored && Matches(p, topic)
  }

  /** Inserting the pattern hides no other pattern. */
  ghost predicate HidesNothing(subs: Subs, pattern: string) {
    subs.AsWritten? ==> Harmless(subs.tree, pattern)
  }

  /** Inserting the pattern ends the match of a topic. */
  ghost predicate EndsMatch(subs: Subs, pattern: string, topic: string) {
    subs.AsWritten? && TakesAway(subs.tree, pattern, topic)
  }

  /** The pattern is going to be listed when it is inserted. */
  ghost predicate TakesEffect(subs: Subs, pattern: string) {
    subs.AsWritten? ==> GetsListed(subs.tree, pattern)
  }

  /** Only the pattern itself, and as written what is cut off with it, matches the topic, and removing it takes that away. */
  ghost predicate RemovalEndsMatch(subs: Subs, pattern: string, topic: string) {
    match subs
    case AsWritten(tree) => RemovalEnds(tree, pattern, topic)
    case Counted(stored) =>
      stored[pattern] == 1 && Matches(pattern, topic) && forall q :: q in stored && Matches(q, topic) ==> q == pattern
  }

  /** Removing the pattern brings the empty pattern back. */
  ghost predicate BringsBackEmpty(subs: Subs, pattern: string) {
    subs.AsWritten? && Reveals(subs.tree, pattern)
  }

  lemma NoSubsMatchNothing(counted: bool, topic: string)
    ensures SubsValid(NoSubs(counted)) && !SubCheck(NoSubs(counted), topic)
  {
    EmptyTree();
    if !counted && Check(EMPTY, topic) {
      var p :| Listed(EMPTY, p) && Matches(p, topic);
      ListedIffSlack(EMPTY, p);
    }
  }

  lemma SubsStayValid(subs: Subs, pattern: string)
    requires SubsValid(subs)
    ensures SubsValid(SubInsert(subs, pattern)) && SubsValid(SubRemove(subs, pattern))
  {
    if subs.AsWritten? {
      ExecWellFormed(subs.tree, Insert(pattern));
      ExecWellFormed(subs.tree, Remove(pattern));
    }
  }

  /** Removing a pattern starts a match only for the empty topic, exactly when it brings the empty pattern back. */
  lemma RemoveStartsMatchIff(subs: Subs, pattern: string, topic: string)
    requires SubsValid(subs)
    ensures SubCheck(SubRemove(subs, pattern), topic) && !SubCheck(subs, topic) <==>
            topic == [] && BringsBackEmpty(subs, pattern)
  {
    match subs
    case AsWritten(tree) =>
      RemoveRevealsIff(tree, pattern, topic);
    case Counted(stored) =>
      if SubCheck(SubRemove(subs, pattern), topic) {
        var p :| p in stored - multiset{pattern} && Matches(p, topic);
        assert p in stored;
      }
  }

  /** Removing a pattern ends the match of exactly the topics that nothing it leaves matches. */
  lemma RemoveEndsMatchIff(subs: Subs, pattern: string, topic: string)
    requires SubsValid(subs)
    ensures SubCheck(subs, topic) && !SubCheck(SubRemove(subs, pattern), topic) <==> RemovalEndsMatch(subs, pattern, topic)
  {
    match subs
    case AsWritten(tree) =>
      RemoveEndsIff(tree, pattern, topic);
    case Counted(stored) =>
      CountedRemoveKeeps(stored, pattern, topic);
  }

  lemma CountedRemoveKeeps(stored: multiset<string>, pattern: string, topic: string)
    ensures SubCheck(Counted(stored - multiset{pattern}), topic) <==>
              exists q :: q in stored && Matches(q, topic) && (q == pattern ==> stored[q] > 1)
  {
    var rest := stored - multiset{pattern};
    assert forall q :: q in rest <==> q in stored && (q == pattern ==> stored[q] > 1);
  }

  /** Inserting a pattern starts the match of exactly the topics it matches, if it takes effect. */
  lemma InsertStartsMatchIff(subs: Subs, pattern: string, topic: string)
    requires SubsValid(subs) && !SubCheck(subs, topic)
    ensures SubCheck(SubInsert(subs, pattern), topic) <==> Matches(pattern, topic) && TakesEffect(subs, pattern)
  {
    match subs
    case AsWritten(tree) =>
      InsertBringsIff(tree, pattern, topic);
    case Counted(stored) =>
      if SubCheck(SubInsert(subs, pattern), topic) {
        var p :| p in stored + multiset{pattern} && Matches(p, topic);
        assert p in stored || p == pattern;
      } else {
        assert pattern in stored + multiset{pattern};
      }
  }

  /** Either way a pattern that takes effect matches what it matches. */
  lemma InsertTakesEffect(subs: Subs, pattern: string, topic: string)
    requires SubsValid(subs) && Matches(pattern, topic) && TakesEffect(subs, pattern)
    ensures SubCheck(SubInsert(subs, pattern), topic)
  {
    InsertEndsMatchIff(subs, pattern, topic);
    if !SubCheck(subs, topic) {
      InsertStartsMatchIff(subs, pattern, topic);
    }
  }

  /** One copy more: what an insertion does to every node as written, or to every pattern with documented counts. */
  lemma InsertAddsOne(subs: Subs, pattern: string, w: string)
    ensures var after := SubInsert(subs, pattern);
            match subs
            case AsWritten(tree) =>
              after.AsWritten? &&
              Get(after.tree, w) == Get(tree, w) + (if w != [] && w <= pattern then 1 else 0) + (if w == pattern then 1 else 0)
            case Counted(stored) =>
              after.Counted? && after.stored[w] == stored[w] + if w == pattern then 1 else 0
  {
    if subs.AsWritten? {
      InsertedGet(subs.tree, pattern, w);
    }
  }

  /** One copy less, if there is one: as written along the path up to the first node with a single reference,
      which goes with everything below it. */
  lemma RemoveTakesOne(subs: Subs, pattern: string, w: string)
    requires SubsValid(subs)
    ensures var after := SubRemove(subs, pattern);
            match subs
            case AsWritten(tree) =>
              after.AsWritten? &&
              Get(after.tree, w) ==
                if !Listed(tree, pattern) then Get(tree, w)
                else if CutOff(tree, pattern, w) then 0
                else Get(tree, w) - if w != [] && w <= pattern && w in tree then 1 else 0
            case Counted(stored) =>
              after.Counted? && after.stored[w] == if w == pattern && stored[w] > 0 then stored[w] - 1 else stored[w]
  {
    if subs.AsWritten? && Listed(subs.tree, pattern) {
      RemovedGet(subs.tree, pattern, w);
    }
  }

  /** Inserting a pattern ends the match of exactly the topics that only patterns on the brink matched. */
  lemma InsertEndsMatchIff(subs: Subs, pattern: string, topic: string)
    requires SubsValid(subs)
    ensures SubCheck(subs, topic) && !SubCheck(SubInsert(subs, pattern), topic) <==> EndsMatch(subs, pattern, topic)
  {
    match subs
    case AsWritten(tree) =>
      InsertTakesAwayIff(tree, pattern, topic);
    case Counted(stored) =>
      if SubCheck(subs, topic) {
        var p :| p in stored && Matches(p, topic);
        assert p in stored + multiset{pattern};
      }
  }

  /** An insertion that hides nothing ends no match. */
  lemma InsertGrows(subs: Subs, pattern: string, topic: string)
    requires SubsValid(subs) && HidesNothing(subs, pattern) && SubCheck(subs, topic)
    ensures SubCheck(SubInsert(subs, pattern), topic)
  {
    InsertEndsMatchIff(subs, pattern, topic);
    if EndsMatch(subs, pattern, topic) {
      InsertHidesNothingIff(subs.tree, pattern);
      var p :| Listed(subs.tree, p) && Matches(p, topic);
      InsertUnlistsIff(subs.tree, pattern, p);
    }
  }
}
