/**
 * The bookkeeping of RobloxMacroBackend's automation loop (macro.py:127-517):
 * the scroll search for one pack and the state it updates, the retry loop
 * that opens the shop, the purchase loop, the loop over the planned packs and
 * the loop that closes the shop.
 *
 * Screen capture and template matching are replaced by an oracle: every call
 * of find_image_in_region (macro.py:237-264) reads the next answer of
 * `screen`, true for "found"; once the answers run out every further query
 * reads "not found".  `running` does not change during a call of the backend:
 * a stop request arriving in the middle of a call is not modelled.
 *
 * The functions take the backend's image_files as `files` and macro_loop's
 * pack_order as `order`, so that their properties hold for any tables; the
 * lemmas at the end apply them to the program's own tables.
 */
module Automation {
  import opened Wrappers
  import opened Catalog
  import opened Planner

  /**
   * find_image_in_region (macro.py:237-264) as the answer of the query at
   * position p of the screen oracle: "found" exactly when the answer there
   * says so, "not found" past the end of the answers.
   */
  function Answer(screen: seq<bool>, p: nat): (r: bool)
    ensures p >= |screen| ==> !r
    ensures p < |screen| ==> r == screen[p]
  {
    p < |screen| && screen[p]
  }

  /** The first offset j < n at which the queries from p answer "found", if any. */
  function FirstHit(screen: seq<bool>, p: nat, n: nat): (r: Option<nat>)
    ensures r.Some? ==> r.value < n
    decreases n
  {
    if n == 0 then None
    else if Answer(screen, p) then Some(0)
    else
      match FirstHit(screen, p + 1, n - 1)
      case None => None
      case Some(j) => Some(j + 1)
  }

  /** FirstHit is the first of the n queries from p that answers "found", and None means none of them does. */
  lemma {:induction false} FirstHitIsFirst(screen: seq<bool>, p: nat, n: nat)
    ensures var r := FirstHit(screen, p, n);
            && (r.Some? ==> Answer(screen, p + r.value))
            && (r.Some? ==> forall j :: p <= j < p + r.value ==> !Answer(screen, j))
            && (r.None? ==> forall j :: p <= j < p + n ==> !Answer(screen, j))
    decreases n
  {
    if n > 0 && !Answer(screen, p) {
      FirstHitIsFirst(screen, p + 1, n - 1);
    }
  }

  /** The first position at or after p whose answer is "found", if any answer left is. */
  function FirstFound(screen: seq<bool>, p: nat): (r: Option<nat>)
    ensures r.Some? ==> p <= r.value < |screen| && screen[r.value]
    ensures r.Some? ==> forall j :: p <= j < r.value ==> !screen[j]
    ensures r.None? ==> forall j :: p <= j < |screen| ==> !screen[j]
    decreases |screen| - p
  {
    if p >= |screen| then None
    else if screen[p] then Some(p)
    else FirstFound(screen, p + 1)
  }

  // The budgets of the three bounded loops (macro.py:458, 337, 502).
  const MaxScrolls: nat := 10
  const MaxOpenMisses: nat := 3
  const MaxCloseAttempts: nat := 5

  /** One probe for a pack: whether it was found and clicked, and the next query position. */
  datatype Probe = Probe(hit: bool, next: nat)

  /**
   * search_and_click_pack (macro.py:266-285): a pack whose name, without its
   * spaces, is not a key of image_files is reported missing without looking
   * at the screen; otherwise one query decides.
   */
  function ProbePack(screen: seq<bool>, p: nat, files: map<string, string>, name: string): (r: Probe)
    ensures r.hit <==> ImageKey(name) in files && Answer(screen, p)
    ensures r.next == if ImageKey(name) in files then p + 1 else p
  {
    if ImageKey(name) !in files then Probe(false, p)
    else Probe(Answer(screen, p), p + 1)
  }

  datatype Direction = Up | Down

  /** scroll_dir (macro.py:470): down towards packs at or after the last one clicked, up otherwise. */
  function ScrollDirection(index: nat, last: nat): (d: Direction)
    ensures d == Down <==> index >= last
  {
    if index >= last then Down else Up
  }

  /** How the while loop of macro.py:466-474 ended. */
  datatype LoopEnd = LoopEnd(found: bool, raised: bool, scrolls: seq<Direction>, next: nat)

  function WithScrolls(before: seq<Direction>, e: LoopEnd): LoopEnd
  {
    e.(scrolls := before + e.scrolls)
  }

  lemma WithScrollsTwice(a: seq<Direction>, b: seq<Direction>, e: LoopEnd)
    ensures WithScrolls(a, WithScrolls(b, e)) == WithScrolls(a + b, e)
  {
    assert a + (b + e.scrolls) == (a + b) + e.scrolls;
  }

  /**
   * The scroll-search loop (macro.py:466-474) after `attempts` scrolls: probe,
   * and on a miss look the pack up in pack_order (a ValueError for a name
   * that is not there, which leaves the loop) and scroll.
   */
  function ScrollLoop(screen: seq<bool>, p: nat, files: map<string, string>, order: seq<string>,
                      name: string, running: bool, last: nat, attempts: nat): (e: LoopEnd)
    requires attempts <= MaxScrolls
    ensures |e.scrolls| <= MaxScrolls - attempts
    ensures e.next >= p
    ensures !(e.found && e.raised)
    ensures e.raised ==> name !in order
    decreases MaxScrolls - attempts
  {
    if attempts == MaxScrolls || !running then LoopEnd(false, false, [], p)
    else
      var probe := ProbePack(screen, p, files, name);
      if probe.hit then LoopEnd(true, false, [], probe.next)
      else
        match IndexOf(order, name)
        case None => LoopEnd(false, true, [], probe.next)
        case Some(i) =>
          WithScrolls([ScrollDirection(i, last)], ScrollLoop(screen, probe.next, files, order, name, running, last, attempts + 1))
  }

  /** What the search for one pack reports: Raised is the ValueError of pack_order.index. */
  datatype Status = Found(index: nat) | NotFound | Raised(clearedInitial: bool)

  /** The search for one pack: its status, whether the shelf was reset to the top, the scrolls, the next query. */
  datatype Search = Search(status: Status, resetToTop: bool, scrolls: seq<Direction>, next: nat)

  /** The backend's initial_search and LastPackClicked. */
  datatype Position = Position(initial: bool, last: nat)

  /**
   * The search for one pack (macro.py:455-481).  On the first search of a
   * session a probe that misses resets the shelf to the top; a probe that hits
   * does not end the search, the loop probes again.  A found pack clears
   * initial_search before its index is looked up.
   */
  function SearchSpec(screen: seq<bool>, p: nat, files: map<string, string>, order: seq<string>,
                      name: string, running: bool, pos: Position): (s: Search)
    ensures |s.scrolls| <= MaxScrolls
    ensures s.status.Found? ==> s.status.index < |order| && order[s.status.index] == name
    ensures s.status.Raised? ==> name !in order
  {
    var pre := if pos.initial then ProbePack(screen, p, files, name) else Probe(false, p);
    var reset := pos.initial && !pre.hit;
    var loop := ScrollLoop(screen, pre.next, files, order, name, running, pos.last, 0);
    if loop.raised then Search(Raised(false), reset, loop.scrolls, loop.next)
    else if !loop.found then Search(NotFound, reset, loop.scrolls, loop.next)
    else
      match IndexOf(order, name)
      case None => Search(Raised(true), reset, loop.scrolls, loop.next)
      case Some(i) => Search(Found(i), reset, loop.scrolls, loop.next)
  }

  /**
   * The position after a search with this status (macro.py:476-481): a found
   * pack clears initial_search and becomes LastPackClicked, a missing one
   * changes nothing, and initial_search never becomes true again.
   */
  function Updated(pos: Position, status: Status): (r: Position)
    ensures r.initial ==> pos.initial
    ensures status.NotFound? ==> r == pos
    ensures status.Found? ==> r == Position(false, status.index)
    ensures status.Raised? ==> r == Position(pos.initial && !status.clearedInitial, pos.last)
  {
    match status
    case Found(i) => Position(false, i)
    case NotFound => pos
    case Raised(cleared) => Position(pos.initial && !cleared, pos.last)
  }

  /**
   * The direction of every scroll is the rule of macro.py:470: down exactly
   * when the pack's index is at or after LastPackClicked.
   */
  lemma DirectionRule(screen: seq<bool>, p: nat, files: map<string, string>, order: seq<string>,
                      name: string, running: bool, pos: Position, k: nat)
    requires k < |SearchSpec(screen, p, files, order, name, running, pos).scrolls|
    ensures name in order
    ensures SearchSpec(screen, p, files, order, name, running, pos).scrolls[k] == Down
            <==> IndexOf(order, name).value >= pos.last
  {
    var pre := if pos.initial then ProbePack(screen, p, files, name) else Probe(false, p);
    ScrollDirections(screen, pre.next, files, order, name, running, pos.last, 0, k);
  }

  /** Every scroll of the loop goes in the direction ScrollDirection gives for the pack's index. */
  lemma {:induction false} ScrollDirections(screen: seq<bool>, p: nat, files: map<string, string>, order: seq<string>,
                                            name: string, running: bool, last: nat, attempts: nat, k: nat)
    requires attempts <= MaxScrolls
    requires k < |ScrollLoop(screen, p, files, order, name, running, last, attempts).scrolls|
    ensures name in order
    ensures ScrollLoop(screen, p, files, order, name, running, last, attempts).scrolls[k]
            == ScrollDirection(IndexOf(order, name).value, last)
    decreases MaxScrolls - attempts
  {
    var probe := ProbePack(screen, p, files, name);
    if k > 0 {
      ScrollDirections(screen, probe.next, files, order, name, running, last, attempts + 1, k - 1);
    }
  }

  /**
   * For a pack of pack_order that has a template, the loop stops at the first
   * hit within the remaining budget, after one scroll per miss; without a hit
   * it spends the whole budget.
   */
  lemma {:induction false} ScrollLoopFirstHit(screen: seq<bool>, p: nat, files: map<string, string>, order: seq<string>,
                                              name: string, last: nat, attempts: nat)
    requires name in order && ImageKey(name) in files
    requires attempts <= MaxScrolls
    ensures var e := ScrollLoop(screen, p, files, order, name, true, last, attempts);
            var hit := FirstHit(screen, p, MaxScrolls - attempts);
            && !e.raised
            && (e.found <==> hit.Some?)
            && (hit.Some? ==> |e.scrolls| == hit.value && e.next == p + hit.value + 1)
            && (hit.None? ==> |e.scrolls| == MaxScrolls - attempts && e.next == p + MaxScrolls - attempts)
    decreases MaxScrolls - attempts
  {
    if attempts < MaxScrolls && !Answer(screen, p) {
      ScrollLoopFirstHit(screen, p + 1, files, order, name, last, attempts + 1);
    }
  }

  /**
   * The search for a pack of pack_order that has a template never raises: it
   * is found exactly when one of the ten probes of the loop hits, and then the
   * position becomes (false, the pack's index); otherwise the position is left
   * as it was (macro.py:455-481).  A pre-probe that hits does not count.
   */
  lemma {:induction false} SearchFirstHit(screen: seq<bool>, p: nat, files: map<string, string>, order: seq<string>,
                                          name: string, pos: Position)
    requires name in order && ImageKey(name) in files
    ensures var s := SearchSpec(screen, p, files, order, name, true, pos);
            var start := if pos.initial then p + 1 else p;
            var hit := FirstHit(screen, start, MaxScrolls);
            && (s.status.Found? <==> hit.Some?)
            && (s.status.NotFound? <==> hit.None?)
            && (s.status.Found? ==>
                  && s.status == Found(IndexOf(order, name).value)
                  && Updated(pos, s.status) == Position(false, IndexOf(order, name).value)
                  && s.next == start + hit.value + 1)
            && (s.status.NotFound? ==>
                  && Updated(pos, s.status) == pos
                  && |s.scrolls| == MaxScrolls && s.next == start + MaxScrolls)
            && (s.resetToTop <==> pos.initial && !Answer(screen, p))
  {
    var start := if pos.initial then p + 1 else p;
    ScrollLoopFirstHit(screen, start, files, order, name, pos.last, 0);
  }

  /** While the macro is stopped the loop does not run: nothing is found and nothing scrolls. */
  lemma StoppedSearchFindsNothing(screen: seq<bool>, p: nat, files: map<string, string>, order: seq<string>,
                                  name: string, pos: Position)
    ensures var s := SearchSpec(screen, p, files, order, name, false, pos);
            s.status == NotFound && s.scrolls == [] && Updated(pos, s.status) == pos
  {
  }

  /**
   * A name outside pack_order makes pack_order.index raise: at the first miss
   * of the loop, or after a hit once initial_search is cleared (macro.py:469,
   * 480-481).  It is never reported found and never scrolls.
   */
  lemma {:induction false} SearchUnknown(screen: seq<bool>, p: nat, files: map<string, string>, order: seq<string>,
                                         name: string, pos: Position)
    requires name !in order
    ensures var s := SearchSpec(screen, p, files, order, name, true, pos);
            var start := if pos.initial && ImageKey(name) in files then p + 1 else p;
            && s.status.Raised?
            && s.scrolls == []
            && (s.status.clearedInitial <==> ImageKey(name) in files && Answer(screen, start))
  {
  }

  /** How logic_open_shop ended: shop open or not, Summon Button misses counted, buttons clicked, next query. */
  datatype OpenEnd = OpenEnd(isOpen: bool, misses: nat, clicks: nat, next: nat)

  /**
   * logic_open_shop's loop (macro.py:335-362) with `misses` misses counted so
   * far: each round asks whether the shop is open and, if not, looks for the
   * Summon Button; only a missing button counts against the budget of 3.  A
   * last query decides the result.  Its budget is stated by OpenLoopBudget.
   */
  function OpenLoop(screen: seq<bool>, p: nat, running: bool, misses: nat): (e: OpenEnd)
    requires misses <= MaxOpenMisses
    ensures e.next > p
    decreases if p <= |screen| then |screen| - p else 0, MaxOpenMisses - misses
  {
    if misses == MaxOpenMisses || !running then OpenEnd(Answer(screen, p), misses, 0, p + 1)
    else if Answer(screen, p) then OpenEnd(true, misses, 0, p + 1)
    else if Answer(screen, p + 1) then
      WithClicks(1, OpenLoop(screen, p + 2, running, misses))
    else OpenLoop(screen, p + 2, running, misses + 1)
  }

  function WithClicks(clicks: nat, e: OpenEnd): OpenEnd
  {
    e.(clicks := e.clicks + clicks)
  }

  /**
   * The budget of logic_open_shop: only misses count, at most 3 of them; every
   * round reads two answers and the final check one more, and its answer is
   * the result.  A running macro gives up only after the third miss; a
   * stopped one only makes the final check.
   */
  lemma {:induction false} OpenLoopBudget(screen: seq<bool>, p: nat, running: bool, misses: nat)
    requires misses <= MaxOpenMisses
    ensures var e := OpenLoop(screen, p, running, misses);
            && misses <= e.misses <= MaxOpenMisses
            && e.next == p + 2 * (e.misses - misses + e.clicks) + 1
            && e.isOpen == Answer(screen, e.next - 1)
            && (running && !e.isOpen ==> e.misses == MaxOpenMisses)
            && (!running ==> e == OpenEnd(Answer(screen, p), misses, 0, p + 1))
    decreases if p <= |screen| then |screen| - p else 0, MaxOpenMisses - misses
  {
    if misses < MaxOpenMisses && running && !Answer(screen, p) {
      if Answer(screen, p + 1) {
        OpenLoopBudget(screen, p + 2, running, misses);
      } else {
        OpenLoopBudget(screen, p + 2, running, misses + 1);
      }
    }
  }

  /** How the close phase ended: whether the X button was clicked, the failed attempts, the next query. */
  datatype CloseEnd = CloseEnd(closed: bool, attempts: nat, next: nat)

  /**
   * The close loop of macro_loop (macro.py:502-508) after `attempts` failed
   * attempts: while the shop is open and fewer than 5 attempts failed, look
   * for the X button; the first click ends the loop.  The shop is asked about
   * even when the budget is spent.  Its budget is stated by CloseLoopBudget.
   */
  function CloseLoop(screen: seq<bool>, p: nat, running: bool, attempts: nat): (e: CloseEnd)
    requires attempts <= MaxCloseAttempts
    ensures e.next >= p
    decreases MaxCloseAttempts - attempts
  {
    if !running then CloseEnd(false, attempts, p)
    else if !Answer(screen, p) || attempts == MaxCloseAttempts then CloseEnd(false, attempts, p + 1)
    else if Answer(screen, p + 1) then CloseEnd(true, attempts, p + 2)
    else CloseLoop(screen, p + 2, running, attempts + 1)
  }

  /**
   * The budget of the close loop: at most 5 failed attempts, two answers per
   * attempt; the loop ends on the first X button click, on a shop that no
   * longer reads open, or once the budget is spent.
   */
  lemma {:induction false} CloseLoopBudget(screen: seq<bool>, p: nat, running: bool, attempts: nat)
    requires attempts <= MaxCloseAttempts
    ensures var e := CloseLoop(screen, p, running, attempts);
            && attempts <= e.attempts <= MaxCloseAttempts
            && (!running ==> e == CloseEnd(false, attempts, p))
            && (e.closed ==> e.next == p + 2 * (e.attempts - attempts) + 2)
            && (e.closed ==> Answer(screen, e.next - 2) && Answer(screen, e.next - 1))
            && (running && !e.closed ==> e.next == p + 2 * (e.attempts - attempts) + 1)
            && (running && !e.closed ==> !Answer(screen, e.next - 1) || e.attempts == MaxCloseAttempts)
    decreases MaxCloseAttempts - attempts
  {
    if running && Answer(screen, p) && attempts < MaxCloseAttempts && !Answer(screen, p + 1) {
      CloseLoopBudget(screen, p + 2, running, attempts + 1);
    }
  }

  /**
   * purchase_pack's loop (macro.py:302-307): it clicks "buy" until a query
   * reports the pack out of stock, and the result is the query after that
   * one.  None when no remaining answer reports it: the source then clicks forever.
   */
  function PurchaseEnd(screen: seq<bool>, p: nat, running: bool): (r: Option<nat>)
    ensures !running ==> r == Some(p)
    ensures running && r.Some? ==> p < r.value <= |screen| && screen[r.value - 1]
    ensures running && r.Some? ==> forall j :: p <= j < r.value - 1 ==> !screen[j]
    ensures running && r.None? ==> forall j :: p <= j < |screen| ==> !screen[j]
  {
    if !running then Some(p)
    else
      match FirstFound(screen, p)
      case None => None
      case Some(q) => Some(q + 1)
  }

  /** What happened to one planned pack. */
  datatype Outcome = Missing | OutOfStock | Purchased

  /** How the purchase phase ended: every pack handled, an exception, or a purchase that never ends. */
  datatype PhaseExit = Completed | Aborted | Hangs

  /** The end of the handling of one pack: an outcome and on to the next pack, or the end of the phase. */
  datatype Step = Done(outcome: Outcome, position: Position, next: nat) | Stopped(exit: PhaseExit, position: Position, next: nat)

  /**
   * One pass of the loop over the planned packs (macro.py:456-498): search
   * the pack; a missing pack moves on; a found pack is checked for stock once
   * and, while in stock, bought.  A ValueError leaves the phase.
   */
  function PackStep(screen: seq<bool>, p: nat, files: map<string, string>, order: seq<string>,
                    name: string, running: bool, pos: Position): (r: Step)
    ensures r.position == Updated(pos, SearchSpec(screen, p, files, order, name, running, pos).status)
  {
    var s := SearchSpec(screen, p, files, order, name, running, pos);
    var now := Updated(pos, s.status);
    match s.status
    case Raised(_) => Stopped(Aborted, now, s.next)
    case NotFound => Done(Missing, now, s.next)
    case Found(_) =>
      if Answer(screen, s.next) then Done(OutOfStock, now, s.next + 1)
      else
        match PurchaseEnd(screen, s.next + 1, running)
        case None => Stopped(Hangs, now, s.next + 1)
        case Some(q) => Done(Purchased, now, q)
  }

  /**
   * A step that stops the phase never completes it, and it aborts only on a
   * pack pack_order does not hold; a missing pack leaves the position alone;
   * a pack found, bought or not, becomes LastPackClicked and leaves the
   * initial search.
   */
  lemma PackStepFacts(screen: seq<bool>, p: nat, files: map<string, string>, order: seq<string>,
                      name: string, running: bool, pos: Position)
    ensures var r := PackStep(screen, p, files, order, name, running, pos);
            && (r.Stopped? ==> r.exit != Completed)
            && (r.Done? && r.outcome.Missing? ==> r.position == pos)
            && (r.Done? && !r.outcome.Missing? ==> !r.position.initial && r.position.last < |order| && order[r.position.last] == name)
            && (r.Stopped? && r.exit == Aborted ==> name !in order)
  {
  }

  /**
   * The three outcomes of a search that ended (macro.py:476-498): a missing
   * pack moves on, an exception aborts; a pack found is skipped when the
   * one stock query right after the search reads out of stock, and is bought
   * otherwise, the buying ending where PurchaseEnd says or hanging.
   */
  lemma PackStepOutcomes(screen: seq<bool>, p: nat, files: map<string, string>, order: seq<string>,
                         name: string, running: bool, pos: Position)
    ensures var s := SearchSpec(screen, p, files, order, name, running, pos);
            var r := PackStep(screen, p, files, order, name, running, pos);
            && (r.Done? && r.outcome.Missing? <==> s.status.NotFound?)
            && (r.Stopped? && r.exit == Aborted <==> s.status.Raised?)
            && (r.Done? && r.outcome.OutOfStock? <==> s.status.Found? && Answer(screen, s.next))
            && (r.Done? && r.outcome.OutOfStock? ==> r.next == s.next + 1)
            && (r.Done? && r.outcome.Purchased? <==>
                  s.status.Found? && !Answer(screen, s.next) && PurchaseEnd(screen, s.next + 1, running).Some?)
            && (r.Done? && r.outcome.Purchased? ==> Some(r.next) == PurchaseEnd(screen, s.next + 1, running))
            && (r.Stopped? && r.exit == Hangs <==>
                  s.status.Found? && !Answer(screen, s.next) && PurchaseEnd(screen, s.next + 1, running).None?)
  {
  }

  datatype PhaseEnd = PhaseEnd(outcomes: seq<Outcome>, exit: PhaseExit, position: Position, next: nat)

  function Prefixed(before: seq<Outcome>, e: PhaseEnd): PhaseEnd
  {
    e.(outcomes := before + e.outcomes)
  }

  lemma PrefixedTwice(a: seq<Outcome>, b: seq<Outcome>, e: PhaseEnd)
    ensures Prefixed(a, Prefixed(b, e)) == Prefixed(a + b, e)
  {
    assert a + (b + e.outcomes) == (a + b) + e.outcomes;
  }

  /** The loop over the planned packs (macro.py:455-498), pack after pack until one stops the phase. */
  function Phase(screen: seq<bool>, p: nat, files: map<string, string>, order: seq<string>,
                 packs: seq<string>, running: bool, pos: Position): (e: PhaseEnd)
    ensures |e.outcomes| <= |packs|
    decreases |packs|
  {
    if |packs| == 0 || !running then PhaseEnd([], Completed, pos, p)
    else
      match PackStep(screen, p, files, order, packs[0], running, pos)
      case Stopped(exit, now, q) => PhaseEnd([], exit, now, q)
      case Done(outcome, now, q) => Prefixed([outcome], Phase(screen, q, files, order, packs[1..], running, now))
  }

  /**
   * One outcome per pack handled: a completed phase of a running macro has
   * handled every pack, a stopped macro handles none, and a known shelf
   * position is never forgotten.
   */
  lemma {:induction false} PhaseBounds(screen: seq<bool>, p: nat, files: map<string, string>, order: seq<string>,
                                       packs: seq<string>, running: bool, pos: Position)
    ensures var e := Phase(screen, p, files, order, packs, running, pos);
            && (e.position.initial ==> pos.initial)
            && (running && e.exit.Completed? ==> |e.outcomes| == |packs|)
            && (!running ==> e == PhaseEnd([], Completed, pos, p))
    decreases |packs|
  {
    if |packs| > 0 && running {
      PackStepFacts(screen, p, files, order, packs[0], running, pos);
      var r := PackStep(screen, p, files, order, packs[0], running, pos);
      if r.Done? {
        PhaseBounds(screen, r.next, files, order, packs[1..], running, r.position);
      }
    }
  }

  /** One pass of the phase at the k-th pack: that pack's step, then the phase over the packs after it. */
  lemma PhaseStep(screen: seq<bool>, p: nat, files: map<string, string>, order: seq<string>,
                  packs: seq<string>, k: nat, running: bool, pos: Position)
    requires k < |packs| && running
    ensures var r := PackStep(screen, p, files, order, packs[k], running, pos);
            Phase(screen, p, files, order, packs[k..], running, pos)
            == if r.Stopped? then PhaseEnd([], r.exit, r.position, r.next)
               else Prefixed([r.outcome], Phase(screen, r.next, files, order, packs[k + 1..], running, r.position))
  {
    assert packs[k..][1..] == packs[k + 1..];
  }

  /**
   * The phase only aborts on a pack that pack_order.index cannot find: when
   * every planned pack is in pack_order it completes, or a purchase never ends.
   */
  lemma {:induction false} PhaseAbortsOnlyOnUnknown(screen: seq<bool>, p: nat, files: map<string, string>, order: seq<string>,
                                                    packs: seq<string>, running: bool, pos: Position)
    requires Phase(screen, p, files, order, packs, running, pos).exit == Aborted
    ensures exists k :: 0 <= k < |packs| && packs[k] !in order
    decreases |packs|
  {
    var r := PackStep(screen, p, files, order, packs[0], running, pos);
    if r.Stopped? {
      assert packs[0] !in order;
    } else {
      PhaseAbortsOnlyOnUnknown(screen, r.next, files, order, packs[1..], running, r.position);
      var k :| 0 <= k < |packs[1..]| && packs[1..][k] !in order;
      assert packs[k + 1] !in order;
    }
  }

  /**
   * After the phase the position is the one it started from, or the shelf
   * position is known and LastPackClicked is the index of one of the planned packs.
   */
  lemma {:induction false} PhasePosition(screen: seq<bool>, p: nat, files: map<string, string>, order: seq<string>,
                                         packs: seq<string>, running: bool, pos: Position)
    ensures var e := Phase(screen, p, files, order, packs, running, pos);
            || e.position == pos
            || (!e.position.initial && e.position.last < |order| && order[e.position.last] in packs)
            || (e.position == Position(false, pos.last) && pos.initial)
    decreases |packs|
  {
    if |packs| > 0 && running {
      var r := PackStep(screen, p, files, order, packs[0], running, pos);
      if r.Done? {
        PhasePosition(screen, r.next, files, order, packs[1..], running, r.position);
        var e := Phase(screen, r.next, files, order, packs[1..], running, r.position);
        if e.position.last < |order| && order[e.position.last] in packs[1..] {
          var k :| 0 <= k < |packs[1..]| && packs[1..][k] == order[e.position.last];
          assert packs[k + 1] == order[e.position.last];
        }
      }
    }
  }

  /** The program's search: a pack of the canonical table is found exactly when one of the ten loop probes hits. */
  lemma CanonicalSearch(screen: seq<bool>, p: nat, name: string, pos: Position)
    requires name in PackFullNames
    ensures var s := SearchSpec(screen, p, ImageFiles, PackFullNames, name, true, pos);
            var start := if pos.initial then p + 1 else p;
            && (s.status.Found? <==> FirstHit(screen, start, MaxScrolls).Some?)
            && (s.status.Found? ==> Updated(pos, s.status) == Position(false, IndexOf(PackFullNames, name).value))
            && (!s.status.Found? ==> Updated(pos, s.status) == pos)
  {
    CanonicalNamesHaveTemplates(name);
    SearchFirstHit(screen, p, ImageFiles, PackFullNames, name, pos);
  }

  /** The packs of the control panel all belong to the canonical table, so the program's phase never aborts. */
  lemma CanonicalPhaseNeverAborts(screen: seq<bool>, p: nat, packs: seq<string>, running: bool, pos: Position)
    requires forall k :: 0 <= k < |packs| ==> packs[k] in PackFullNames
    ensures Phase(screen, p, ImageFiles, PackFullNames, packs, running, pos).exit != Aborted
  {
    if Phase(screen, p, ImageFiles, PackFullNames, packs, running, pos).exit == Aborted {
      PhaseAbortsOnlyOnUnknown(screen, p, ImageFiles, PackFullNames, packs, running, pos);
    }
  }

  /** The first position at or after p whose answer is "not found": past the end of the answers at the latest. */
  function FirstMiss(screen: seq<bool>, p: nat): (q: nat)
    ensures p <= q && !Answer(screen, q)
    decreases |screen| - p
  {
    if !Answer(screen, p) then p else FirstMiss(screen, p + 1)
  }

  /** Every answer before the first miss reads "found". */
  lemma {:induction false} BeforeFirstMiss(screen: seq<bool>, p: nat)
    ensures forall j :: p <= j < FirstMiss(screen, p) ==> Answer(screen, j)
    decreases |screen| - p
  {
    if Answer(screen, p) {
      BeforeFirstMiss(screen, p + 1);
    }
  }

  /**
   * How wait_for_restock ended: whether the shop was open for the check,
   * whether the watched pack was clicked, how many out-of-stock answers were
   * waited through, and the next query.
   */
  datatype Restock = Restock(shopReady: bool, clicked: bool, watched: nat, next: nat)

  /**
   * The shop check at the start of wait_for_restock: one query, and
   * logic_open_shop when the shop does not read open; the pack is clicked
   * right after.
   */
  function ShopCheck(screen: seq<bool>, p: nat, running: bool): (e: OpenEnd)
    ensures e.next > p
    ensures Answer(screen, p) ==> e.isOpen && e.next == p + 1
  {
    if Answer(screen, p) then OpenEnd(true, 0, 0, p + 1) else OpenLoop(screen, p + 1, running, 0)
  }

  /**
   * wait_for_restock (macro.py:398-416) watching the pack `name`: open the
   * shop if it is not open (giving up when that fails), click the pack, then
   * wait while the macro runs and the pack reads out of stock.
   */
  function WatchRestock(screen: seq<bool>, p: nat, files: map<string, string>, name: string, running: bool): (r: Restock)
    ensures r.clicked ==> r.shopReady && ImageKey(name) in files
    ensures !r.shopReady ==> !Answer(screen, p) && r.watched == 0
    ensures !running ==> r.watched == 0
  {
    var shop := ShopCheck(screen, p, running);
    if !shop.isOpen then Restock(false, false, 0, shop.next)
    else
      var probe := ProbePack(screen, shop.next, files, name);
      if !running then Restock(true, probe.hit, 0, probe.next)
      else
        var q := FirstMiss(screen, probe.next);
        Restock(true, probe.hit, q - probe.next, q + 1)
  }

  /**
   * While the macro runs, the wait after the click ends at the first answer
   * that no longer reads out of stock, and every answer it waited through did.
   */
  lemma RestockWaitsForStock(screen: seq<bool>, p: nat, files: map<string, string>, name: string)
    ensures var r := WatchRestock(screen, p, files, name, true);
            r.shopReady ==>
              && r.next >= r.watched + 1
              && !Answer(screen, r.next - 1)
              && forall j :: r.next - 1 - r.watched <= j < r.next - 1 ==> Answer(screen, j)
  {
    var shop := ShopCheck(screen, p, true);
    if shop.isOpen {
      BeforeFirstMiss(screen, ProbePack(screen, shop.next, files, name).next);
    }
  }

  /** The pack wait_for_restock watches as written: the short name of PACK_COLORS (macro.py:405-407). */
  function RestockPackNameAsWritten(last: nat): (r: string)
    requires last < |PackShortNames|
    ensures r == PackShortNames[last] && ImageKey(r) !in ImageFiles
  {
    ShortNameHasNoTemplate(last);
    PackShortNames[last]
  }

  /**
   * As written, the short name has no template in image_files, so
   * search_and_click_pack returns without looking and the pack the macro
   * waits on is never clicked.
   */
  lemma RestockAsWrittenNeverClicks(screen: seq<bool>, p: nat, last: nat, running: bool)
    requires last < |PackShortNames|
    ensures !WatchRestock(screen, p, ImageFiles, RestockPackNameAsWritten(last), running).clicked
  {
    ShortNameHasNoTemplate(last);
  }

  /** The pack wait_for_restock evidently means to watch: the one at LastPackClicked in macro_loop's pack_order. */
  function RestockPackName(last: nat): (r: string)
    requires last < |PackFullNames|
    ensures r == FullName(PackShortNames[last])
  {
    PackFullNames[last]
  }

  /**
   * With the pack's full name the pack has a template, and it is clicked
   * exactly when the shop is ready and the query at the click position hits.
   */
  lemma RestockClicksLastPack(screen: seq<bool>, p: nat, last: nat, running: bool)
    requires last < |PackFullNames|
    ensures var r := WatchRestock(screen, p, ImageFiles, RestockPackName(last), running);
            && ImageKey(RestockPackName(last)) in ImageFiles
            && (r.clicked <==> r.shopReady && Answer(screen, ShopCheck(screen, p, running).next))
  {
    CanonicalNamesHaveTemplates(PackFullNames[last]);
  }

  /**
   * One pass of macro_loop's while loop: whether the shop opened, the order
   * planned, how the purchase phase ended, whether the macro went on to wait
   * for a restock, the new position and the next query.
   */
  datatype CycleEnd = CycleEnd(shopOpened: bool, plan: seq<string>, phase: PhaseEnd, restock: Option<Restock>, position: Position, next: nat)

  /**
   * One cycle of macro_loop (macro.py:437-515) with pack_order the canonical
   * table: open the shop (a failure retries the cycle), plan the order, run
   * the purchase phase; after a completed phase, while the macro runs, close
   * the shop, look for the Sell Button once and wait for the restock of the
   * last pack clicked.  An exception or an endless purchase ends the cycle at
   * the phase.  What the cycle does is stated by CycleFacts.
   */
  function Cycle(screen: seq<bool>, p: nat, files: map<string, string>, selected: seq<string>,
                 running: bool, pos: Position): (c: CycleEnd)
    requires pos.last < |PackFullNames|
    ensures c.position.last < |PackFullNames|
  {
    var open := OpenLoop(screen, p, running, 0);
    if !open.isOpen then CycleEnd(false, [], PhaseEnd([], Completed, pos, open.next), None, pos, open.next)
    else OpenedCycle(screen, open.next, files, selected, running, pos)
  }

  /** The cycle once the shop is open at query q: plan, purchase phase, then what follows it (see CycleFacts). */
  function OpenedCycle(screen: seq<bool>, q: nat, files: map<string, string>, selected: seq<string>,
                       running: bool, pos: Position): (c: CycleEnd)
    requires pos.last < |PackFullNames|
    ensures c.position.last < |PackFullNames|
  {
    var plan := PlanOrder(SortKey, selected, pos.initial, pos.last);
    var phase := Phase(screen, q, files, PackFullNames, plan, running, pos);
    PhasePosition(screen, q, files, PackFullNames, plan, running, pos);
    AfterPhase(screen, files, plan, phase, running)
  }

  /**
   * What follows the purchase phase: nothing after an exception, an endless
   * purchase or a stop; otherwise the close loop, one query for the Sell
   * Button and the wait for the restock of the last pack clicked.
   */
  function AfterPhase(screen: seq<bool>, files: map<string, string>, plan: seq<string>, phase: PhaseEnd,
                      running: bool): (c: CycleEnd)
    requires phase.position.last < |PackFullNames|
    ensures c.shopOpened && c.plan == plan && c.phase == phase && c.position == phase.position
    ensures c.restock.Some? <==> running && phase.exit == Completed
  {
    if phase.exit != Completed || !running then CycleEnd(true, plan, phase, None, phase.position, phase.next)
    else
      var close := CloseLoop(screen, phase.next, running, 0);
      var restock := WatchRestock(screen, close.next + 1, files, RestockPackName(phase.position.last), running);
      CycleEnd(true, plan, phase, Some(restock), phase.position, restock.next)
  }

  /**
   * What one cycle promises: a shop that does not open leaves the position
   * alone and buys nothing; an opened shop searches a permutation of the
   * selection in the planned order; the shelf position, once known, stays
   * known; the restock is only waited for after a completed phase of a
   * running macro.
   */
  lemma CycleFacts(screen: seq<bool>, p: nat, files: map<string, string>, selected: seq<string>,
                   running: bool, pos: Position)
    requires pos.last < |PackFullNames|
    ensures var c := Cycle(screen, p, files, selected, running, pos);
            && (c.position.initial ==> pos.initial)
            && (!c.shopOpened ==> c.position == pos && c.phase.outcomes == [] && c.restock.None?)
            && c.shopOpened == OpenLoop(screen, p, running, 0).isOpen
            && (c.shopOpened ==> c.plan == PlanOrder(SortKey, selected, pos.initial, pos.last))
            && (c.shopOpened ==> |c.plan| == |selected| && multiset(c.plan) == multiset(selected))
            && (c.shopOpened ==> c.phase == Phase(screen, OpenLoop(screen, p, running, 0).next, files, PackFullNames, c.plan, running, pos))
            && (c.shopOpened ==> c.position == c.phase.position)
            && (c.restock.Some? ==> running && c.phase.exit == Completed)
  {
    PlanIsPermutation(SortKey, selected, pos.initial, pos.last);
    var open := OpenLoop(screen, p, running, 0);
    if open.isOpen {
      var plan := PlanOrder(SortKey, selected, pos.initial, pos.last);
      PhasePosition(screen, open.next, files, PackFullNames, plan, running, pos);
    }
  }

  /**
   * RobloxMacroBackend's automation state (macro.py:128-159): the image_files
   * table, whether the macro runs, whether the shelf position is still
   * unknown, and the index of the last pack clicked.
   */
  class Backend {
    const imageFiles: map<string, string>
    var running: bool
    var initialSearch: bool
    var lastPackClicked: nat

    /** LastPackClicked indexes the canonical order: it is only ever set from pack_order.index. */
    ghost predicate Valid()
      reads this
    {
      lastPackClicked < |PackFullNames|
    }

    constructor()
      ensures Valid()
      ensures imageFiles == ImageFiles
      ensures !running && initialSearch && lastPackClicked == 0
    {
      imageFiles := ImageFiles;
      running := false;
      initialSearch := true;
      lastPackClicked := 0;
    }

    /** search_and_click_pack (macro.py:266-285): one query when the pack has a template, none otherwise. */
    method SearchAndClickPack(screen: seq<bool>, p: nat, name: string) returns (found: bool, next: nat)
      ensures Probe(found, next) == ProbePack(screen, p, imageFiles, name)
    {
      var key := ImageKey(name);
      if key !in imageFiles {
        return false, p;
      }
      found := Answer(screen, p);
      next := p + 1;
    }

    /** The scroll-search loop (macro.py:466-474): at most 10 probes, one scroll after each miss. */
    method ScrollSearch(screen: seq<bool>, p: nat, order: seq<string>, name: string) returns (e: LoopEnd)
      ensures e == ScrollLoop(screen, p, imageFiles, order, name, running, lastPackClicked, 0)
    {
      var q, attempts, scrolls := p, 0, [];
      while attempts < MaxScrolls && running
        invariant attempts <= MaxScrolls
        invariant ScrollLoop(screen, p, imageFiles, order, name, running, lastPackClicked, 0)
                  == WithScrolls(scrolls, ScrollLoop(screen, q, imageFiles, order, name, running, lastPackClicked, attempts))
      {
        var found;
        found, q := SearchAndClickPack(screen, q, name);
        if found {
          return LoopEnd(true, false, scrolls, q);
        }
        var index := IndexOf(order, name);
        if index.None? {
          return LoopEnd(false, true, scrolls, q);
        }
        WithScrollsTwice(scrolls, [ScrollDirection(index.value, lastPackClicked)],
                         ScrollLoop(screen, q, imageFiles, order, name, running, lastPackClicked, attempts + 1));
        scrolls := scrolls + [ScrollDirection(index.value, lastPackClicked)];
        attempts := attempts + 1;
      }
      return LoopEnd(false, false, scrolls, q);
    }

    /**
     * The search for one pack (macro.py:455-481): the pre-probe of a first
     * search, then the scroll-search loop; a found pack clears initial_search
     * and becomes LastPackClicked.
     */
    method SearchPack(screen: seq<bool>, p: nat, order: seq<string>, name: string) returns (s: Search)
      modifies this`initialSearch, this`lastPackClicked
      ensures s == SearchSpec(screen, p, imageFiles, order, name, running, old(Position(initialSearch, lastPackClicked)))
      ensures Position(initialSearch, lastPackClicked) == Updated(old(Position(initialSearch, lastPackClicked)), s.status)
    {
      var q := p;
      var reset := false;
      if initialSearch {
        var hit;
        hit, q := SearchAndClickPack(screen, q, name);
        reset := !hit;
      }
      var loop := ScrollSearch(screen, q, order, name);
      if loop.raised {
        return Search(Raised(false), reset, loop.scrolls, loop.next);
      }
      if !loop.found {
        return Search(NotFound, reset, loop.scrolls, loop.next);
      }
      initialSearch := false;
      var index := IndexOf(order, name);
      if index.None? {
        return Search(Raised(true), reset, loop.scrolls, loop.next);
      }
      lastPackClicked := index.value;
      return Search(Found(index.value), reset, loop.scrolls, loop.next);
    }

    /** logic_open_shop (macro.py:335-362): at most 3 Summon Button misses, then a final check. */
    method OpenShop(screen: seq<bool>, p: nat) returns (isOpen: bool, misses: nat, clicks: nat, next: nat)
      ensures OpenEnd(isOpen, misses, clicks, next) == OpenLoop(screen, p, running, 0)
    {
      misses, clicks, next := 0, 0, p;
      while misses < MaxOpenMisses && running
        invariant misses <= MaxOpenMisses
        invariant OpenLoop(screen, p, running, 0) == WithClicks(clicks, OpenLoop(screen, next, running, misses))
        decreases if next <= |screen| then |screen| - next else 0, MaxOpenMisses - misses
      {
        if Answer(screen, next) {
          return true, misses, clicks, next + 1;
        }
        var button := Answer(screen, next + 1);
        next := next + 2;
        if button {
          clicks := clicks + 1;
        } else {
          misses := misses + 1;
        }
      }
      isOpen := Answer(screen, next);
      next := next + 1;
    }

    /** The close phase of macro_loop (macro.py:500-508). */
    method ClosePhase(screen: seq<bool>, p: nat) returns (e: CloseEnd)
      ensures e == CloseLoop(screen, p, running, 0)
    {
      var attempts, next := 0, p;
      while true
        invariant attempts <= MaxCloseAttempts
        invariant CloseLoop(screen, p, running, 0) == CloseLoop(screen, next, running, attempts)
        decreases MaxCloseAttempts - attempts
      {
        if !running {
          return CloseEnd(false, attempts, next);
        }
        var shopOpen := Answer(screen, next);
        next := next + 1;
        if !shopOpen || attempts == MaxCloseAttempts {
          return CloseEnd(false, attempts, next);
        }
        var x := Answer(screen, next);
        next := next + 1;
        if x {
          return CloseEnd(true, attempts, next);
        }
        attempts := attempts + 1;
      }
    }

    /** purchase_pack (macro.py:294-307): None when no answer left reports the pack out of stock. */
    method PurchasePack(screen: seq<bool>, p: nat) returns (next: Option<nat>)
      ensures next == PurchaseEnd(screen, p, running)
    {
      if !running {
        return Some(p);
      }
      var q := p;
      while q < |screen| && !screen[q]
        invariant p <= q && (q == p || q <= |screen|)
        invariant FirstFound(screen, q) == FirstFound(screen, p)
        decreases |screen| - q
      {
        q := q + 1;
      }
      if q >= |screen| {
        return None;
      }
      return Some(q + 1);
    }

    /**
     * packs_to_buy and reordered_packs (macro.py:445-453): the selection
     * sorted by shelf index, rotated to the first pack at or after the last
     * one clicked once the shelf position is known.
     */
    method PlanSearchOrder(selected: seq<string>) returns (order: seq<string>)
      ensures order == PlanOrder(SortKey, selected, initialSearch, lastPackClicked)
      ensures |order| == |selected| && multiset(order) == multiset(selected)
    {
      var packs := SortByKey(SortKey, selected);
      var start := 0;
      if !initialSearch {
        var i := 0;
        while i < |packs|
          invariant 0 <= i <= |packs|
          invariant forall j :: 0 <= j < i ==> SortKey(packs[j]) < lastPackClicked
        {
          if SortKey(packs[i]) >= lastPackClicked {
            start := i;
            break;
          }
          i := i + 1;
        }
      }
      assert start == StartIndex(SortKey, packs, initialSearch, lastPackClicked);
      order := packs[start..] + packs[..start];
      PlanIsPermutation(SortKey, selected, initialSearch, lastPackClicked);
    }

    /** One pass of the loop over the planned packs (macro.py:456-498). */
    method HandlePack(screen: seq<bool>, p: nat, order: seq<string>, name: string) returns (r: Step)
      modifies this`initialSearch, this`lastPackClicked
      ensures r == PackStep(screen, p, imageFiles, order, name, running, old(Position(initialSearch, lastPackClicked)))
      ensures Position(initialSearch, lastPackClicked) == r.position
    {
      var s := SearchPack(screen, p, order, name);
      var now := Position(initialSearch, lastPackClicked);
      match s.status {
        case Raised(_) =>
          return Stopped(Aborted, now, s.next);
        case NotFound =>
          return Done(Missing, now, s.next);
        case Found(_) =>
          var outOfStock := Answer(screen, s.next);
          if outOfStock {
            return Done(OutOfStock, now, s.next + 1);
          }
          var after := PurchasePack(screen, s.next + 1);
          if after.None? {
            return Stopped(Hangs, now, s.next + 1);
          }
          return Done(Purchased, now, after.value);
      }
    }

    /** The loop over the planned packs (macro.py:455-498). */
    method PurchasePhase(screen: seq<bool>, p: nat, order: seq<string>, packs: seq<string>) returns (e: PhaseEnd)
      modifies this`initialSearch, this`lastPackClicked
      ensures e == Phase(screen, p, imageFiles, order, packs, running, old(Position(initialSearch, lastPackClicked)))
      ensures Position(initialSearch, lastPackClicked) == e.position
    {
      var outcomes: seq<Outcome> := [];
      var next, k := p, 0;
      ghost var spec := Phase(screen, p, imageFiles, order, packs, running, Position(initialSearch, lastPackClicked));
      while k < |packs| && running
        invariant k <= |packs|
        invariant spec == Prefixed(outcomes, Phase(screen, next, imageFiles, order, packs[k..], running, Position(initialSearch, lastPackClicked)))
      {
        PhaseStep(screen, next, imageFiles, order, packs, k, running, Position(initialSearch, lastPackClicked));
        var r := HandlePack(screen, next, order, packs[k]);
        if r.Stopped? {
          return PhaseEnd(outcomes, r.exit, r.position, r.next);
        }
        PrefixedTwice(outcomes, [r.outcome], Phase(screen, r.next, imageFiles, order, packs[k + 1..], running, r.position));
        outcomes, next, k := outcomes + [r.outcome], r.next, k + 1;
      }
      return PhaseEnd(outcomes, Completed, Position(initialSearch, lastPackClicked), next);
    }

    /** One pass of macro_loop's while loop (macro.py:437-515). */
    method RunCycle(screen: seq<bool>, p: nat, selected: seq<string>) returns (c: CycleEnd)
      requires Valid()
      modifies this`initialSearch, this`lastPackClicked
      ensures Valid()
      ensures c == Cycle(screen, p, imageFiles, selected, running, old(Position(initialSearch, lastPackClicked)))
      ensures Position(initialSearch, lastPackClicked) == c.position
    {
      var pos := Position(initialSearch, lastPackClicked);
      var isOpen, misses, clicks, next := OpenShop(screen, p);
      if !isOpen {
        return CycleEnd(false, [], PhaseEnd([], Completed, pos, next), None, pos, next);
      }
      c := RunOpenedCycle(screen, next, selected);
    }

    /** The cycle once the shop is open at query q (macro.py:445-515). */
    method RunOpenedCycle(screen: seq<bool>, q: nat, selected: seq<string>) returns (c: CycleEnd)
      requires Valid()
      modifies this`initialSearch, this`lastPackClicked
      ensures Valid()
      ensures c == OpenedCycle(screen, q, imageFiles, selected, running, old(Position(initialSearch, lastPackClicked)))
      ensures Position(initialSearch, lastPackClicked) == c.position
    {
      var pos := Position(initialSearch, lastPackClicked);
      var plan := PlanSearchOrder(selected);
      var phase := PurchasePhase(screen, q, PackFullNames, plan);
      PhasePosition(screen, q, imageFiles, PackFullNames, plan, running, pos);
      c := FinishCycle(screen, plan, phase);
    }

    /** What follows the purchase phase (macro.py:500-515). */
    method FinishCycle(screen: seq<bool>, plan: seq<string>, phase: PhaseEnd) returns (c: CycleEnd)
      requires Valid() && lastPackClicked == phase.position.last
      ensures c == AfterPhase(screen, imageFiles, plan, phase, running)
    {
      if phase.exit != Completed || !running {
        return CycleEnd(true, plan, phase, None, phase.position, phase.next);
      }
      var close := ClosePhase(screen, phase.next);
      // The Sell Button query reads the answer at close.next; its clicks read none.
      var restock := WaitForRestock(screen, close.next + 1);
      return CycleEnd(true, plan, phase, Some(restock), phase.position, restock.next);
    }

    /** wait_for_restock (macro.py:398-416), watching the pack at LastPackClicked by its full name. */
    method WaitForRestock(screen: seq<bool>, p: nat) returns (r: Restock)
      requires Valid()
      ensures r == WatchRestock(screen, p, imageFiles, RestockPackName(lastPackClicked), running)
    {
      var shop := CheckShop(screen, p);
      if !shop.isOpen {
        return Restock(false, false, 0, shop.next);
      }
      var clicked, next := SearchAndClickPack(screen, shop.next, RestockPackName(lastPackClicked));
      if !running {
        return Restock(true, clicked, 0, next);
      }
      var last := WaitWhileOutOfStock(screen, next);
      return Restock(true, clicked, last - next, last + 1);
    }

    /** The shop check of wait_for_restock (macro.py:399-403). */
    method CheckShop(screen: seq<bool>, p: nat) returns (e: OpenEnd)
      ensures e == ShopCheck(screen, p, running)
    {
      if Answer(screen, p) {
        return OpenEnd(true, 0, 0, p + 1);
      }
      var isOpen, misses, clicks, next := OpenShop(screen, p + 1);
      return OpenEnd(isOpen, misses, clicks, next);
    }

    /**
     * The wait of wait_for_restock (macro.py:410-412): one query per wait,
     * until the pack no longer reads out of stock; q is the query that ends it.
     */
    method WaitWhileOutOfStock(screen: seq<bool>, p: nat) returns (q: nat)
      ensures q == FirstMiss(screen, p)
    {
      q := p;
      while Answer(screen, q)
        invariant p <= q <= FirstMiss(screen, p)
        invariant FirstMiss(screen, q) == FirstMiss(screen, p)
        decreases |screen| - q
      {
        q := q + 1;
      }
    }
  }
}
