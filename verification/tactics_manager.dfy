/**
 * The admin tactics editor (`src/components/admin/tactics-manager.tsx`):
 * every edit is a pure transformation of the board held in the editor,
 * together with the selected player and the status message. Fresh ids
 * (`makeId`, random) are parameters.
 */
module TacticsManager {
  import opened Wrappers
  import opened Text
  import opened Tactics
  import opened TacticsRoute

  /** The editor's state: the board, the selected player id and the status message. */
  datatype Editor = Editor(board: BoardDto, selected: Option<string>, message: string)

  const TooFewPlayersMessage := "Lagg till minst tva spelare for att skapa en passningskedja."

  /** `Array.prototype.filter`: keeps, in order, the elements `keep` accepts. */
  function Filter<T(!new)>(s: seq<T>, keep: T -> bool): (r: seq<T>)
    ensures |r| <= |s|
    ensures forall x :: x in r <==> x in s && keep(x)
    ensures multiset(r) <= multiset(s)
    ensures (forall i | 0 <= i < |s| :: keep(s[i])) ==> r == s
    ensures |s| == 1 ==> r == (if keep(s[0]) then s else [])
  {
    if s == [] then []
    else
      var r := (if keep(s[0]) then [s[0]] else []) + Filter(s[1..], keep);
      assert s == [s[0]] + s[1..];
      assert multiset(s) == multiset([s[0]]) + multiset(s[1..]);
      r
  }

  /**
   * Filtering distributes over concatenation. With the one-element case this
   * fixes the result: the kept elements in their order, each as often as it occurs.
   */
  lemma FilterAppend<T(!new)>(a: seq<T>, b: seq<T>, keep: T -> bool)
    ensures Filter(a + b, keep) == Filter(a, keep) + Filter(b, keep)
  {
    KeptIsFilter(a + b, keep);
    KeptIsFilter(a, keep);
    KeptIsFilter(b, keep);
    KeptAppend(a, b, keep);
  }

  /** `Filter` without its contract, so that proofs about concatenation stay small. */
  function Kept<T>(s: seq<T>, keep: T -> bool): seq<T>
  {
    if s == [] then [] else (if keep(s[0]) then [s[0]] else []) + Kept(s[1..], keep)
  }

  lemma {:induction false} KeptIsFilter<T(!new)>(s: seq<T>, keep: T -> bool)
    ensures Filter(s, keep) == Kept(s, keep)
  {
    if s != [] {
      KeptIsFilter(s[1..], keep);
    }
  }

  lemma {:induction false} KeptAppend<T>(a: seq<T>, b: seq<T>, keep: T -> bool)
    ensures Kept(a + b, keep) == Kept(a, keep) + Kept(b, keep)
  {
    if a == [] {
      assert a + b == b;
    } else {
      var head := if keep(a[0]) then [a[0]] else [];
      TailOfAppend(a, b);
      calc {
        Kept(a + b, keep);
        head + Kept(a[1..] + b, keep);
        { KeptAppend(a[1..], b, keep); }
        head + (Kept(a[1..], keep) + Kept(b, keep));
        (head + Kept(a[1..], keep)) + Kept(b, keep);
        Kept(a, keep) + Kept(b, keep);
      }
    }
  }

  lemma TailOfAppend<T>(a: seq<T>, b: seq<T>)
    requires a != []
    ensures (a + b)[0] == a[0] && (a + b)[1..] == a[1..] + b
  {
  }


  /** `(id) => playerIds.has(id)`. */
  function KnownIn(known: set<string>): string -> bool {
    (id: string) => id in known
  }

  /** `(chain) => chain.playerIds.length >= 2`. */
  predicate LongEnough(c: PassChain) {
    |c.playerIds| >= 2
  }

  /** `(player) => player.id !== playerId`. */
  function OtherThan(playerId: string): Player -> bool {
    (p: Player) => p.id != playerId
  }

  /** `addPlayer`'s grid position for the player at `index`: four per row, 0.1 apart, clamped. */
  function GridPosition(index: nat): (xy: (real, real))
    ensures xy.0 == 0.34 + (index % 4) as real * 0.1
    ensures 0.34 <= xy.0 <= 0.64
    ensures 0.34 + (index / 4) as real * 0.1 <= 1.0 ==> xy.1 == 0.34 + (index / 4) as real * 0.1
    ensures 0.34 + (index / 4) as real * 0.1 > 1.0 ==> xy.1 == 1.0
  {
    (Clamp01(Finite(0.34 + (index % 4) as real * 0.1)), Clamp01(Finite(0.34 + (index / 4) as real * 0.1)))
  }

  /**
   * `addPlayer`: one new player at the end, named after its position, placed
   * on the grid; it is the burner exactly when it is the first player, and
   * then it also becomes the selected player.
   */
  function AddPlayer(e: Editor, freshId: string): (r: Editor)
    ensures var n := |e.board.players|;
      && |r.board.players| == n + 1
      && r.board.players[..n] == e.board.players
      && r.board.players[n].id == freshId
      && r.board.players[n].name == "Spelare " + Ordinal(n)
      && r.board.players[n].number.None? && r.board.players[n].role.None?
      && (r.board.players[n].x, r.board.players[n].y) == GridPosition(n)
      && r.board.players[n].radius == 0.0
      && (r.board.players[n].isBurner <==> n == 0)
    ensures r.board == e.board.(players := r.board.players)
    ensures r.selected == if e.board.players == [] then Some(freshId) else e.selected
    ensures r.message == e.message
  {
    var index := |e.board.players|;
    var (x, y) := GridPosition(index);
    var next := Player(freshId, "Spelare " + Ordinal(index), None, None, x, y, 0.0, index == 0);
    Editor(e.board.(players := e.board.players + [next]),
           if index == 0 then Some(freshId) else e.selected,
           e.message)
  }

  /** Adding a player never breaks the burner rule: the first player added is the burner, later ones are not. */
  lemma AddPlayerKeepsBurnerRule(e: Editor, freshId: string)
    requires ValidateBurnerSelection(e.board.players).Accepted?
    ensures ValidateBurnerSelection(AddPlayer(e, freshId).board.players).Accepted?
  {
    var players := AddPlayer(e, freshId).board.players;
    if e.board.players == [] {
      assert UniqueBurner(players, 0);
    } else {
      var b: nat :| UniqueBurner(e.board.players, b);
      assert players[b] == e.board.players[b];
      assert UniqueBurner(players, b);
    }
  }

  /** A chain with only the player ids in `known` kept. */
  function StripChain(c: PassChain, known: set<string>): (r: PassChain)
    ensures r.id == c.id && r.name == c.name
    ensures r.playerIds == Filter(c.playerIds, KnownIn(known))
    ensures forall id :: id in r.playerIds <==> id in c.playerIds && id in known
  {
    c.(playerIds := Filter(c.playerIds, KnownIn(known)))
  }

  /** The chains with at least two steps, in order. */
  function LongChains(chains: seq<PassChain>): (r: seq<PassChain>)
    ensures r == Filter(chains, LongEnough)
    ensures forall c :: c in r <==> c in chains && |c.playerIds| >= 2
  {
    Filter(chains, LongEnough)
  }

  /** Chains stripped to `known` ids, dropping every chain left with fewer than two. */
  function StripChains(chains: seq<PassChain>, known: set<string>): (r: seq<PassChain>)
    ensures r == LongChains(StripEach(chains, known))
    ensures AllChainsValid(r, known)
    ensures forall k | 0 <= k < |chains| && |StripChain(chains[k], known).playerIds| >= 2 :: StripChain(chains[k], known) in r
    ensures forall c | c in r :: exists k | 0 <= k < |chains| :: c == StripChain(chains[k], known)
  {
    var stripped := StripEach(chains, known);
    var r := LongChains(stripped);
    LongChainsPositions(stripped);
    LongChainsValid(stripped, known);
    r
  }

  /** Every chain stripped to `known`; all the ids left are known. */
  function StripEach(chains: seq<PassChain>, known: set<string>): (cs: seq<PassChain>)
    ensures |cs| == |chains|
    ensures forall k | 0 <= k < |chains| :: cs[k] == StripChain(chains[k], known)
    ensures forall k, s | 0 <= k < |cs| && 0 <= s < |cs[k].playerIds| :: cs[k].playerIds[s] in known
  {
    var cs := seq(|chains|, k requires 0 <= k < |chains| => StripChain(chains[k], known));
    forall k, s | 0 <= k < |cs| && 0 <= s < |cs[k].playerIds| ensures cs[k].playerIds[s] in known {
      assert cs[k].playerIds[s] in cs[k].playerIds;
    }
    cs
  }

  /** Chains whose ids are all known keep only valid chains once the short ones go. */
  lemma LongChainsValid(cs: seq<PassChain>, known: set<string>)
    requires forall k, s | 0 <= k < |cs| && 0 <= s < |cs[k].playerIds| :: cs[k].playerIds[s] in known
    ensures AllChainsValid(LongChains(cs), known)
  {
    var r := LongChains(cs);
    forall k | 0 <= k < |r| ensures ChainValid(r[k], known) {
      assert r[k] in r;
      var j :| 0 <= j < |cs| && cs[j] == r[k];
    }
  }

  /**
   * `removePlayer`: that id leaves the board and every chain; chains left
   * with fewer than two players go. A removed selection moves to the first
   * remaining player.
   */
  function RemovePlayer(e: Editor, playerId: string): (r: Editor)
    ensures r.board.players == Filter(e.board.players, OtherThan(playerId))
    ensures r.board.passChains == StripChains(e.board.passChains, PlayerIds(r.board.players))
    ensures forall p :: p in r.board.players <==> p in e.board.players && p.id != playerId
    ensures playerId !in PlayerIds(r.board.players)
    ensures AllChainsValid(r.board.passChains, PlayerIds(r.board.players))
    ensures forall k | 0 <= k < |r.board.passChains| :: playerId !in r.board.passChains[k].playerIds
    ensures r.board == e.board.(players := r.board.players, passChains := r.board.passChains)
    ensures e.selected == Some(playerId) ==>
      r.selected == if r.board.players == [] then None else Some(r.board.players[0].id)
    ensures e.selected != Some(playerId) ==> r.selected == e.selected
  {
    var players := Filter(e.board.players, OtherThan(playerId));
    var chains := StripChains(e.board.passChains, PlayerIds(players));
    RemovedEverywhere(e.board.players, playerId, chains);
    var selected := if e.selected == Some(playerId) then (if players == [] then None else Some(players[0].id)) else e.selected;
    Editor(e.board.(players := players, passChains := chains), selected, e.message)
  }

  /** After the filter the id is gone from the players, hence from every chain stripped to them. */
  lemma RemovedEverywhere(players: seq<Player>, playerId: string, chains: seq<PassChain>)
    requires AllChainsValid(chains, PlayerIds(Filter(players, OtherThan(playerId))))
    ensures forall p :: p in Filter(players, OtherThan(playerId)) <==> p in players && p.id != playerId
    ensures playerId !in PlayerIds(Filter(players, OtherThan(playerId)))
    ensures forall k | 0 <= k < |chains| :: playerId !in chains[k].playerIds
  {
    var rest := Filter(players, OtherThan(playerId));
    forall i | 0 <= i < |rest|
      ensures rest[i].id != playerId
    {
      assert rest[i] in rest;
    }
    forall k | 0 <= k < |chains|
      ensures playerId !in chains[k].playerIds
    {
      assert ChainValid(chains[k], PlayerIds(rest));
    }
  }

  /** Removing a player that is not on the board changes no player. */
  lemma RemoveAbsentPlayer(e: Editor, playerId: string)
    requires playerId !in PlayerIds(e.board.players)
    ensures RemovePlayer(e, playerId).board.players == e.board.players
  {
  }

  /** `renamePlayer`: the players with that id get the new name; nothing else changes. */
  function RenamePlayer(e: Editor, playerId: string, nextName: string): (r: Editor)
    ensures |r.board.players| == |e.board.players|
    ensures forall i | 0 <= i < |e.board.players| && e.board.players[i].id != playerId :: r.board.players[i] == e.board.players[i]
    ensures forall i | 0 <= i < |e.board.players| && e.board.players[i].id == playerId ::
      r.board.players[i] == e.board.players[i].(name := nextName)
    ensures r == e.(board := e.board.(players := r.board.players))
  {
    var ps := e.board.players;
    e.(board := e.board.(players := seq(|ps|, i requires 0 <= i < |ps| =>
      if ps[i].id == playerId then ps[i].(name := nextName) else ps[i])))
  }

  /** Renaming keeps the ids, so the chains stay exactly as valid, and keeps the burner rule. */
  lemma RenameKeepsRules(e: Editor, playerId: string, nextName: string)
    ensures var r := RenamePlayer(e, playerId, nextName);
      PlayerIds(r.board.players) == PlayerIds(e.board.players)
      && (ValidateBurnerSelection(r.board.players).Accepted? <==> ValidateBurnerSelection(e.board.players).Accepted?)
  {
    var ps := e.board.players;
    var qs := RenamePlayer(e, playerId, nextName).board.players;
    assert forall i | 0 <= i < |ps| :: qs[i].id == ps[i].id && qs[i].isBurner == ps[i].isBurner;
    SameBurnersSameVerdict(ps, qs);
    forall id | id in PlayerIds(ps) ensures id in PlayerIds(qs) {
      var i :| 0 <= i < |ps| && ps[i].id == id;
      assert qs[i].id == id;
    }
  }

  /** Two lists with the same burner flags, place by place, get the same burner verdict. */
  lemma SameBurnersSameVerdict(ps: seq<Player>, qs: seq<Player>)
    requires |ps| == |qs|
    requires forall i | 0 <= i < |ps| :: ps[i].isBurner == qs[i].isBurner
    ensures ValidateBurnerSelection(ps) == ValidateBurnerSelection(qs)
  {
    if exists b: nat :: UniqueBurner(ps, b) {
      var b: nat :| UniqueBurner(ps, b);
      assert UniqueBurner(qs, b);
    }
    if exists b: nat :: UniqueBurner(qs, b) {
      var b: nat :| UniqueBurner(qs, b);
      assert UniqueBurner(ps, b);
    }
  }

  /** `setBurner`: afterwards a player is the burner exactly when it has that id. */
  function SetBurner(e: Editor, playerId: string): (r: Editor)
    ensures |r.board.players| == |e.board.players|
    ensures forall i | 0 <= i < |e.board.players| ::
      r.board.players[i] == e.board.players[i].(isBurner := r.board.players[i].isBurner)
    ensures forall i | 0 <= i < |r.board.players| :: r.board.players[i].isBurner <==> r.board.players[i].id == playerId
    ensures r == e.(board := e.board.(players := r.board.players))
  {
    var ps := e.board.players;
    e.(board := e.board.(players := seq(|ps|, i requires 0 <= i < |ps| => ps[i].(isBurner := ps[i].id == playerId))))
  }

  /** No two players share an id. */
  predicate UniqueIds(players: seq<Player>) {
    forall i, j | 0 <= i < j < |players| :: players[i].id != players[j].id
  }

  /**
   * With unique ids, `setBurner` makes the board pass the burner rule
   * exactly when the board is empty or the id is on it.
   */
  lemma SetBurnerSatisfiesRule(e: Editor, playerId: string)
    requires UniqueIds(e.board.players)
    ensures ValidateBurnerSelection(SetBurner(e, playerId).board.players).Accepted?
      <==> e.board.players == [] || playerId in PlayerIds(e.board.players)
  {
    var ps := e.board.players;
    var qs := SetBurner(e, playerId).board.players;
    if playerId in PlayerIds(ps) {
      var b :| 0 <= b < |ps| && ps[b].id == playerId;
      assert UniqueBurner(qs, b);
    }
  }

  /** `setPlayerRadius`: the radius of the players with that id becomes the clamped value; nothing else changes. */
  function SetPlayerRadius(e: Editor, playerId: string, radius: Num): (r: Editor)
    ensures |r.board.players| == |e.board.players|
    ensures forall i | 0 <= i < |e.board.players| && e.board.players[i].id != playerId :: r.board.players[i] == e.board.players[i]
    ensures forall i | 0 <= i < |e.board.players| && e.board.players[i].id == playerId ::
      r.board.players[i] == e.board.players[i].(radius := ClampRadius(radius))
    ensures forall i | 0 <= i < |r.board.players| :: r.board.players[i].id == playerId ==> 0.0 <= r.board.players[i].radius <= 0.5
    ensures r == e.(board := e.board.(players := r.board.players))
  {
    var clamped := ClampRadius(radius);
    var ps := e.board.players;
    e.(board := e.board.(players := seq(|ps|, i requires 0 <= i < |ps| =>
      if ps[i].id == playerId then ps[i].(radius := clamped) else ps[i])))
  }

  /**
   * `addChain`: with fewer than two players only the message changes;
   * otherwise a chain of the first two players is appended.
   */
  function AddChain(e: Editor, freshId: string): (r: Editor)
    ensures |e.board.players| < 2 ==> r == e.(message := TooFewPlayersMessage)
    ensures |e.board.players| >= 2 ==>
      && r.board.passChains == e.board.passChains
           + [PassChain(freshId, "Kedja " + Ordinal(|e.board.passChains|), [e.board.players[0].id, e.board.players[1].id])]
      && r == e.(board := e.board.(passChains := r.board.passChains))
  {
    if |e.board.players| < 2 then e.(message := TooFewPlayersMessage)
    else
      var next := PassChain(freshId, "Kedja " + Ordinal(|e.board.passChains|), [e.board.players[0].id, e.board.players[1].id]);
      e.(board := e.board.(passChains := e.board.passChains + [next]))
  }

  /** Adding a chain keeps every chain valid: the new one names two players on the board. */
  lemma AddChainKeepsChainsValid(e: Editor, freshId: string)
    requires AllChainsValid(e.board.passChains, PlayerIds(e.board.players))
    ensures var r := AddChain(e, freshId);
      AllChainsValid(r.board.passChains, PlayerIds(r.board.players))
  {
  }

  /** Keeps the chains whose id is not `chainId`. */
  function OtherChain(chainId: string): PassChain -> bool {
    (c: PassChain) => c.id != chainId
  }

  /** `removeChain`: the chains with that id go, the others stay in order. */
  function RemoveChain(e: Editor, chainId: string): (r: Editor)
    ensures forall c :: c in r.board.passChains <==> c in e.board.passChains && c.id != chainId
    ensures r.board.passChains == Filter(e.board.passChains, OtherChain(chainId))
    ensures r == e.(board := e.board.(passChains := r.board.passChains))
  {
    e.(board := e.board.(passChains := Filter(e.board.passChains, OtherChain(chainId))))
  }

  /** A partial chain, as `updateChain` spreads it over the chain with that id. */
  datatype ChainPatch = ChainPatch(id: Option<string>, name: Option<string>, playerIds: Option<seq<string>>)

  function Patched(c: PassChain, patch: ChainPatch): PassChain {
    PassChain(patch.id.GetOr(c.id), patch.name.GetOr(c.name), patch.playerIds.GetOr(c.playerIds))
  }

  /** `updateChain`: the fields the patch sets replace those of the chains with that id. */
  function UpdateChain(e: Editor, chainId: string, patch: ChainPatch): (r: Editor)
    ensures |r.board.passChains| == |e.board.passChains|
    ensures forall k | 0 <= k < |e.board.passChains| && e.board.passChains[k].id != chainId ::
      r.board.passChains[k] == e.board.passChains[k]
    ensures forall k | 0 <= k < |e.board.passChains| && e.board.passChains[k].id == chainId ::
      && (patch.id.Some? ==> r.board.passChains[k].id == patch.id.value)
      && (patch.id.None? ==> r.board.passChains[k].id == e.board.passChains[k].id)
      && (patch.name.Some? ==> r.board.passChains[k].name == patch.name.value)
      && (patch.name.None? ==> r.board.passChains[k].name == e.board.passChains[k].name)
      && (patch.playerIds.Some? ==> r.board.passChains[k].playerIds == patch.playerIds.value)
      && (patch.playerIds.None? ==> r.board.passChains[k].playerIds == e.board.passChains[k].playerIds)
    ensures r == e.(board := e.board.(passChains := r.board.passChains))
  {
    var cs := e.board.passChains;
    e.(board := e.board.(passChains := seq(|cs|, k requires 0 <= k < |cs| =>
      if cs[k].id == chainId then Patched(cs[k], patch) else cs[k])))
  }

  /** `addChainStep`: the first player's id is appended to the chains with that id. */
  function AddChainStep(e: Editor, chainId: string): (r: Editor)
    ensures e.board.players == [] ==> r == e
    ensures |r.board.passChains| == |e.board.passChains|
    ensures e.board.players != [] ==> forall k | 0 <= k < |e.board.passChains| ::
      r.board.passChains[k] == if e.board.passChains[k].id == chainId
        then e.board.passChains[k].(playerIds := e.board.passChains[k].playerIds + [e.board.players[0].id])
        else e.board.passChains[k]
    ensures r == e.(board := e.board.(passChains := r.board.passChains))
  {
    if e.board.players == [] then e
    else
      var first := e.board.players[0].id;
      var cs := e.board.passChains;
      e.(board := e.board.(passChains := seq(|cs|, k requires 0 <= k < |cs| =>
        if cs[k].id == chainId then cs[k].(playerIds := cs[k].playerIds + [first]) else cs[k])))
  }

  /** A step names a player on the board, so valid chains stay valid. */
  lemma AddChainStepKeepsChainsValid(e: Editor, chainId: string)
    requires AllChainsValid(e.board.passChains, PlayerIds(e.board.players))
    ensures var r := AddChainStep(e, chainId);
      AllChainsValid(r.board.passChains, PlayerIds(r.board.players))
  {
  }

  /** The ids of a chain without the step at `index` (any other index removes nothing). */
  function WithoutStep(ids: seq<string>, index: int): (r: seq<string>)
    ensures 0 <= index < |ids| ==> r == ids[..index] + ids[index + 1..]
    ensures !(0 <= index < |ids|) ==> r == ids
  {
    if 0 <= index < |ids| then ids[..index] + ids[index + 1..] else ids
  }

  /** A chain after `removeChainStep`'s map: the step goes from the chain with that id. */
  function StepRemoved(c: PassChain, chainId: string, index: int): PassChain {
    if c.id == chainId then c.(playerIds := WithoutStep(c.playerIds, index)) else c
  }

  /** Every chain after `StepRemoved`, in the same order. */
  function StepRemovedEach(chains: seq<PassChain>, chainId: string, index: int): (cs: seq<PassChain>)
    ensures |cs| == |chains|
    ensures forall k | 0 <= k < |chains| :: cs[k] == StepRemoved(chains[k], chainId, index)
  {
    seq(|chains|, k requires 0 <= k < |chains| => StepRemoved(chains[k], chainId, index))
  }

  /**
   * `removeChainStep`: the step goes from the chains with that id; then
   * every chain with fewer than two steps is dropped.
   */
  function RemoveChainStep(e: Editor, chainId: string, index: int): (r: Editor)
    ensures r.board.passChains == LongChains(StepRemovedEach(e.board.passChains, chainId, index))
    ensures forall k | 0 <= k < |e.board.passChains| && |StepRemoved(e.board.passChains[k], chainId, index).playerIds| >= 2 ::
      StepRemoved(e.board.passChains[k], chainId, index) in r.board.passChains
    ensures forall c | c in r.board.passChains ::
      |c.playerIds| >= 2 && exists k | 0 <= k < |e.board.passChains| :: c == StepRemoved(e.board.passChains[k], chainId, index)
    ensures r == e.(board := e.board.(passChains := r.board.passChains))
  {
    var cs := e.board.passChains;
    var edited := StepRemovedEach(cs, chainId, index);
    var kept := LongChains(edited);
    forall k | 0 <= k < |cs| && |StepRemoved(cs[k], chainId, index).playerIds| >= 2
      ensures StepRemoved(cs[k], chainId, index) in kept
    {
      assert edited[k] in edited;
    }
    forall c | c in kept ensures exists k | 0 <= k < |cs| :: c == StepRemoved(cs[k], chainId, index) {
      var k :| 0 <= k < |edited| && edited[k] == c;
    }
    e.(board := e.board.(passChains := kept))
  }

  /** Removing a step keeps every remaining chain valid. */
  lemma RemoveChainStepKeepsChainsValid(e: Editor, chainId: string, index: int)
    requires AllChainsValid(e.board.passChains, PlayerIds(e.board.players))
    ensures var r := RemoveChainStep(e, chainId, index);
      AllChainsValid(r.board.passChains, PlayerIds(r.board.players))
  {
    var r := RemoveChainStep(e, chainId, index);
    var known := PlayerIds(e.board.players);
    forall k | 0 <= k < |r.board.passChains|
      ensures ChainValid(r.board.passChains[k], known)
    {
      var c := r.board.passChains[k];
      assert c in r.board.passChains;
      var j :| 0 <= j < |e.board.passChains| && c == StepRemoved(e.board.passChains[j], chainId, index);
      assert ChainValid(e.board.passChains[j], known);
      StepRemovedKnown(e.board.passChains[j], chainId, index, known);
    }
  }

  /** Removing a step keeps every remaining step a known player. */
  lemma StepRemovedKnown(c: PassChain, chainId: string, index: int, known: set<string>)
    requires forall j | 0 <= j < |c.playerIds| :: c.playerIds[j] in known
    ensures var d := StepRemoved(c, chainId, index);
      forall j | 0 <= j < |d.playerIds| :: d.playerIds[j] in known
  {
    var ids := c.playerIds;
    var d := StepRemoved(c, chainId, index);
    forall s | 0 <= s < |d.playerIds| ensures d.playerIds[s] in known {
      if c.id == chainId && 0 <= index < |ids| {
        if s < index {
          assert d.playerIds[s] == ids[s];
        } else {
          assert d.playerIds[s] == ids[s + 1];
        }
      }
    }
  }

  /** A name as `saveBoard` sends it: trimmed, or the default when blank. */
  function CleanName(name: string, prefix: string, index: nat): (r: string)
    ensures r != []
    ensures Trim(name) != [] ==> r == Trim(name)
    ensures Trim(name) == [] ==> r == prefix + Ordinal(index)
  {
    if Trim(name) != [] then Trim(name) else prefix + Ordinal(index)
  }

  /** `saveBoard`'s player cleanup: names filled in, coordinates and radius clamped. */
  function CleanPlayers(players: seq<Player>): (r: seq<Player>)
    ensures |r| == |players|
    ensures forall i | 0 <= i < |r| ::
      && r[i] == players[i].(name := r[i].name, x := r[i].x, y := r[i].y, radius := r[i].radius)
      && r[i].name == CleanName(players[i].name, "Spelare ", i)
      && 0.0 <= r[i].x <= 1.0 && 0.0 <= r[i].y <= 1.0 && 0.0 <= r[i].radius <= 0.5
      && (0.0 <= players[i].x <= 1.0 ==> r[i].x == players[i].x)
      && (0.0 <= players[i].y <= 1.0 ==> r[i].y == players[i].y)
      && (0.0 <= players[i].radius <= 0.5 ==> r[i].radius == players[i].radius)
  {
    seq(|players|, i requires 0 <= i < |players| =>
      players[i].(name := CleanName(players[i].name, "Spelare ", i),
                  x := Clamp01(Finite(players[i].x)),
                  y := Clamp01(Finite(players[i].y)),
                  radius := ClampRadius(Finite(players[i].radius))))
  }

  /** Cleanup keeps every id. */
  lemma CleanPlayersKeepIds(players: seq<Player>)
    ensures PlayerIds(CleanPlayers(players)) == PlayerIds(players)
  {
    var r := CleanPlayers(players);
    forall id | id in PlayerIds(players) ensures id in PlayerIds(r) {
      var i :| 0 <= i < |players| && players[i].id == id;
      assert r[i].id == id;
    }
  }

  /** One chain as `saveBoard` cleans it: named by its position, unknown ids dropped. */
  function CleanChain(c: PassChain, index: nat, known: set<string>): (r: PassChain)
    ensures r.id == c.id && r.name == CleanName(c.name, "Kedja ", index)
    ensures r.playerIds == Filter(c.playerIds, KnownIn(known))
    ensures forall id :: id in r.playerIds <==> id in c.playerIds && id in known
  {
    PassChain(c.id, CleanName(c.name, "Kedja ", index), StripChain(c, known).playerIds)
  }

  /** `saveBoard`'s chain cleanup: names filled in by position, unknown ids dropped, short chains dropped. */
  function CleanChains(chains: seq<PassChain>, players: seq<Player>): (r: seq<PassChain>)
    ensures r == LongChains(CleanEach(chains, PlayerIds(players)))
    ensures AllChainsValid(r, PlayerIds(players))
    ensures forall k | 0 <= k < |chains| && |CleanChain(chains[k], k, PlayerIds(players)).playerIds| >= 2 ::
      CleanChain(chains[k], k, PlayerIds(players)) in r
    ensures forall c | c in r :: exists k | 0 <= k < |chains| :: c == CleanChain(chains[k], k, PlayerIds(players))
  {
    var known := PlayerIds(players);
    var cleaned := CleanEach(chains, known);
    var r := LongChains(cleaned);
    LongChainsPositions(cleaned);
    LongChainsValid(cleaned, known);
    r
  }

  /** The long chains are exactly the entries, by position, that have two ids or more. */
  lemma LongChainsPositions(cs: seq<PassChain>)
    ensures forall k | 0 <= k < |cs| && |cs[k].playerIds| >= 2 :: cs[k] in LongChains(cs)
    ensures forall c | c in LongChains(cs) :: exists k | 0 <= k < |cs| :: c == cs[k]
  {
    forall c | c in LongChains(cs) ensures exists k | 0 <= k < |cs| :: c == cs[k] {
      assert c in cs;
    }
  }

  /** Every chain cleaned at its own position; all the ids left are known. */
  function CleanEach(chains: seq<PassChain>, known: set<string>): (cs: seq<PassChain>)
    ensures |cs| == |chains|
    ensures forall k | 0 <= k < |chains| :: cs[k] == CleanChain(chains[k], k, known)
    ensures forall k, s | 0 <= k < |cs| && 0 <= s < |cs[k].playerIds| :: cs[k].playerIds[s] in known
  {
    var cs := seq(|chains|, k requires 0 <= k < |chains| => CleanChain(chains[k], k, known));
    forall k, s | 0 <= k < |cs| && 0 <= s < |cs[k].playerIds| ensures cs[k].playerIds[s] in known {
      assert cs[k].playerIds[s] in cs[k].playerIds;
    }
    cs
  }

  /** The body `saveBoard` sends: cleaned players and chains, and the cones as they are. */
  datatype SavePayload = SavePayload(players: seq<Player>, passChains: seq<PassChain>, cones: seq<Cone>)

  /** The payload's chains name only the payload's players, so the server's chain checks pass. */
  function SaveBoardPayload(board: BoardDto): (p: SavePayload)
    ensures p.players == CleanPlayers(board.players) && p.cones == board.cones
    ensures p.passChains == CleanChains(board.passChains, board.players)
    ensures AllChainsValid(p.passChains, PlayerIds(p.players))
  {
    CleanPlayersKeepIds(board.players);
    var players := CleanPlayers(board.players);
    SavePayload(players, CleanChains(board.passChains, board.players), board.cones)
  }
}
