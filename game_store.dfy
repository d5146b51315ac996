/** The server's game list, stripped of HTTP and the JSON file: POST appends
    a game under the next id (one more than the largest present, or 1 for an
    empty list), DELETE removes the first game with the given id or reports
    that there is none. */
module GameStore {
  import opened Games
  import opened Sequences
  import opened EntryForm

  /** How one request field is stored: an empty field means the player sat out. */
  function Stored(f: FormField): (r: Option<int>)
    ensures r == None <==> f == Blank
    ensures f.Entered? ==> r == Some(f.value)
  {
    match f
    case Blank => None
    case Entered(v) => Some(v)
  }

  /** The five stored results of a submitted game. */
  function StoredScores(entry: PerPlayer<FormField>): (r: Scores)
    ensures forall p :: r.Of(p) == Stored(entry.Of(p))
  {
    PerPlayer(Stored(entry.matt), Stored(entry.seth), Stored(entry.mack),
              Stored(entry.arnav), Stored(entry.henry))
  }

  /** The largest id in a non-empty list. */
  function MaxId(gs: seq<Game>): (m: int)
    requires gs != []
    ensures forall g :: g in gs ==> g.id <= m
    ensures exists g :: g in gs && g.id == m
  {
    if |gs| == 1 then gs[0].id
    else
      var rest := MaxId(gs[1..]);
      assert forall g :: g in gs <==> g == gs[0] || g in gs[1..];
      if gs[0].id >= rest then gs[0].id else rest
  }

  /** The id POST gives a new game. */
  function NextId(gs: seq<Game>): (id: int)
    ensures forall g :: g in gs ==> g.id < id
    ensures gs == [] ==> id == 1
    ensures gs != [] ==> exists g :: g in gs && g.id == id - 1
  {
    if |gs| > 0 then MaxId(gs) + 1 else 1
  }

  /** The record POST appends. */
  function NewGame(gs: seq<Game>, entry: PerPlayer<FormField>): (g: Game)
    ensures forall h :: h in gs ==> h.id < g.id
    ensures forall p :: g.scores.Of(p) == Stored(entry.Of(p))
  {
    Game(NextId(gs), StoredScores(entry))
  }

  /** The first position holding `id`, or -1 when no game has it. */
  function FindIndex(gs: seq<Game>, id: int): (i: int)
    ensures -1 <= i < |gs|
    ensures i == -1 <==> forall g :: g in gs ==> g.id != id
    ensures i >= 0 ==> gs[i].id == id && forall j :: 0 <= j < i ==> gs[j].id != id
  {
    if gs == [] then -1
    else if gs[0].id == id then 0
    else
      var k := FindIndex(gs[1..], id);
      assert forall g :: g in gs <==> g == gs[0] || g in gs[1..];
      if k == -1 then -1 else k + 1
  }

  /** The list with the game at position `i` cut out. */
  function RemoveAt(gs: seq<Game>, i: nat): (r: seq<Game>)
    requires i < |gs|
    ensures multiset(r) + multiset{gs[i]} == multiset(gs)
  {
    assert gs == gs[..i] + [gs[i]] + gs[i + 1..];
    gs[..i] + gs[i + 1..]
  }

  /** No two stored games share an id. */
  predicate UniqueIds(gs: seq<Game>) {
    forall i, j :: 0 <= i < j < |gs| ==> gs[i].id != gs[j].id
  }

  /** The stored game list. */
  class Store {
    var games: seq<Game>

    constructor (initial: seq<Game>)
      ensures games == initial
    {
      games := initial;
    }

    /** POST /api/games: the new game is appended under the next id and returned. */
    method Append(entry: PerPlayer<FormField>) returns (g: Game)
      modifies this
      ensures g == NewGame(old(games), entry)
      ensures games == old(games) + [g]
      ensures UniqueIds(old(games)) ==> UniqueIds(games)
    {
      if UniqueIds(games) {
        AppendKeepsIdsUnique(games, entry);
      }
      var id := if |games| > 0 then MaxId(games) + 1 else 1;
      g := Game(id, StoredScores(entry));
      games := games + [g];
    }

    /** DELETE /api/games/:id: None is the 404 "Game not found" answer. */
    method Delete(id: int) returns (deleted: Option<Game>)
      modifies this
      ensures FindIndex(old(games), id) == -1 ==> deleted == None && games == old(games)
      ensures FindIndex(old(games), id) >= 0 ==>
        deleted == Some(old(games)[FindIndex(old(games), id)])
        && games == RemoveAt(old(games), FindIndex(old(games), id))
      ensures UniqueIds(old(games)) ==> UniqueIds(games)
    {
      var idx := FindIndex(games, id);
      if idx == -1 {
        deleted := None;
        return;
      }
      if UniqueIds(games) {
        DeleteKeepsIdsUnique(games, idx);
      }
      deleted := Some(games[idx]);
      games := games[..idx] + games[idx + 1..];
    }
  }

  // ---------------------------------------------------------------------------
  // Properties of the list operations

  /** Appending keeps ids unique: the new id is above every id present. */
  lemma AppendKeepsIdsUnique(gs: seq<Game>, entry: PerPlayer<FormField>)
    requires UniqueIds(gs)
    ensures UniqueIds(gs + [NewGame(gs, entry)])
  {
    var r := gs + [NewGame(gs, entry)];
    forall i, j | 0 <= i < j < |r| ensures r[i].id != r[j].id {
      if j == |gs| {
        assert r[i] == gs[i] && r[i] in gs;
      } else {
        assert r[i] == gs[i] && r[j] == gs[j];
      }
    }
  }

  /** Removal keeps the other games in their order and shortens the list by one. */
  lemma RemoveAtKeepsOthers(gs: seq<Game>, i: nat)
    requires i < |gs|
    ensures |RemoveAt(gs, i)| == |gs| - 1
    ensures forall j :: 0 <= j < i ==> RemoveAt(gs, i)[j] == gs[j]
    ensures forall j :: i <= j < |gs| - 1 ==> RemoveAt(gs, i)[j] == gs[j + 1]
    ensures SubsequenceOf(RemoveAt(gs, i), gs)
  {
    PrefixSkipIsSubsequence(gs, i);
  }

  lemma {:induction false} PrefixSkipIsSubsequence(gs: seq<Game>, i: nat)
    requires i < |gs|
    ensures SubsequenceOf(gs[..i] + gs[i + 1..], gs)
  {
    if i == 0 {
      assert gs[..0] + gs[1..] == gs[1..];
      SubsequenceOfSelf(gs[1..]);
      SkipHead(gs[1..], gs);
    } else {
      PrefixSkipIsSubsequence(gs[1..], i - 1);
      assert gs[..i] + gs[i + 1..] == [gs[0]] + (gs[1..][..i - 1] + gs[1..][i..]);
    }
  }

  lemma {:induction false} SubsequenceOfSelf(s: seq<Game>)
    ensures SubsequenceOf(s, s)
  {
    if s != [] {
      SubsequenceOfSelf(s[1..]);
    }
  }

  /** A subsequence of `b[1..]` is a subsequence of `b`. */
  lemma {:induction false} SkipHead(a: seq<Game>, b: seq<Game>)
    requires b != [] && SubsequenceOf(a, b[1..])
    ensures SubsequenceOf(a, b)
    decreases |b|, 0
  {
    if a != [] && a[0] == b[0] {
      // matched greedily here instead of later: the rest still fits in b[1..]
      SubsequenceTail(a, b[1..]);
    }
  }

  /** Dropping the first element of a subsequence keeps it a subsequence. */
  lemma {:induction false} SubsequenceTail(a: seq<Game>, b: seq<Game>)
    requires a != [] && SubsequenceOf(a, b)
    ensures SubsequenceOf(a[1..], b)
    decreases |b|, 1
  {
    if a[0] == b[0] {
      SkipHead(a[1..], b);
    } else {
      SubsequenceTail(a, b[1..]);
      SkipHead(a[1..], b);
    }
  }

  /** Deleting keeps ids unique, and a deleted id is then not found again. */
  lemma DeleteKeepsIdsUnique(gs: seq<Game>, i: nat)
    requires UniqueIds(gs) && i < |gs|
    ensures UniqueIds(RemoveAt(gs, i))
    ensures FindIndex(RemoveAt(gs, i), gs[i].id) == -1
  {
    RemoveAtKeepsOthers(gs, i);
    var r := RemoveAt(gs, i);
    forall j, k | 0 <= j < k < |r| ensures r[j].id != r[k].id {
      var j', k' := if j < i then j else j + 1, if k < i then k else k + 1;
      assert r[j] == gs[j'] && r[k] == gs[k'];
    }
    forall g | g in r ensures g.id != gs[i].id {
      var j :| 0 <= j < |r| && r[j] == g;
      var j' := if j < i then j else j + 1;
      assert r[j] == gs[j'];
    }
  }

  /** Ids are not monotonic: after the game with the largest id is deleted,
      the next append gets an id no larger than the deleted one (ids start at 1). */
  lemma DeletingMaxLowersNextId(gs: seq<Game>, i: nat)
    requires UniqueIds(gs) && i < |gs| && gs[i].id == MaxId(gs) && gs[i].id >= 1
    ensures NextId(RemoveAt(gs, i)) <= gs[i].id
  {
    RemoveAtMembers(gs, i);
  }

  /** Deleting a game whose id is below the largest leaves the next id as it was. */
  lemma DeletingBelowMaxKeepsNextId(gs: seq<Game>, i: nat)
    requires i < |gs| && gs[i].id < MaxId(gs)
    ensures NextId(RemoveAt(gs, i)) == NextId(gs)
  {
    RemoveAtMembers(gs, i);
    var top :| top in gs && top.id == MaxId(gs);
    var k :| 0 <= k < |gs| && gs[k] == top;
    assert gs[k] in RemoveAt(gs, i);
  }

  /** The games left after a splice are games of the old list, and every game
      at another position is still there. */
  lemma RemoveAtMembers(gs: seq<Game>, i: nat)
    requires i < |gs|
    ensures forall g :: g in RemoveAt(gs, i) ==> g in gs
    ensures forall k :: 0 <= k < |gs| && k != i ==> gs[k] in RemoveAt(gs, i)
  {
    RemoveAtKeepsOthers(gs, i);
    var r := RemoveAt(gs, i);
    forall g | g in r ensures g in gs {
      var j :| 0 <= j < |r| && r[j] == g;
      assert r[j] == gs[if j < i then j else j + 1];
    }
    forall k | 0 <= k < |gs| && k != i ensures gs[k] in r {
      assert gs[k] == r[if k < i then k else k - 1];
    }
  }

  /** Appending a game, deleting it, and appending again hands out the same id twice. */
  lemma IdReusedAfterUndo(gs: seq<Game>, first: PerPlayer<FormField>, second: PerPlayer<FormField>)
    ensures var g := NewGame(gs, first);
      && FindIndex(gs + [g], g.id) == |gs|
      && NewGame(RemoveAt(gs + [g], |gs|), second).id == g.id
  {
    var g := NewGame(gs, first);
    FreshIdFoundLast(gs, g);
    RemoveLastUndoesAppend(gs, g);
  }

  /** A game appended under an id above every present one is found at the end. */
  lemma FreshIdFoundLast(gs: seq<Game>, g: Game)
    requires forall h :: h in gs ==> h.id < g.id
    ensures FindIndex(gs + [g], g.id) == |gs|
  {
    var after := gs + [g];
    forall j | 0 <= j < |gs| ensures after[j].id != g.id {
      assert after[j] == gs[j] && gs[j] in gs;
    }
    assert after[|gs|] == g;
  }

  /** Cutting out the last game undoes appending it. */
  lemma RemoveLastUndoesAppend(gs: seq<Game>, g: Game)
    ensures RemoveAt(gs + [g], |gs|) == gs
  {
    var after := gs + [g];
    assert after[..|gs|] == gs && after[|gs| + 1..] == [];
  }

  /** From an empty list: ids 1 and 2 are assigned, deleting 1 leaves
      the next id at 3. */
  lemma IdsFromEmpty(e1: PerPlayer<FormField>, e2: PerPlayer<FormField>, e3: PerPlayer<FormField>)
    ensures var g1 := NewGame([], e1);
      var g2 := NewGame([g1], e2);
      var afterDelete := RemoveAt([g1, g2], FindIndex([g1, g2], 1));
      g1.id == 1 && g2.id == 2 && afterDelete == [g2] && NewGame(afterDelete, e3).id == 3
  {
    var g1 := NewGame([], e1);
    var g2 := NewGame([g1], e2);
    assert MaxId([g1]) == 1;
    assert FindIndex([g1, g2], 1) == 0;
    assert MaxId([g2]) == 2;
  }

  /** A game the form accepts is stored as a zero-sum record with at least
      two players present. */
  lemma AcceptedEntryIsZeroSum(gs: seq<Game>, entry: PerPlayer<FormField>)
    requires Validate(entry) == None
    ensures ZeroSum(NewGame(gs, entry).scores)
    ensures exists p, q :: p != q && NewGame(gs, entry).scores.Of(p).Some? && NewGame(gs, entry).scores.Of(q).Some?
  {
    ValidateAcceptsExactly(entry);
    var s := StoredScores(entry);
    assert RowSum(s) == EnteredSum(entry);
    TwoFilledArePresent(entry);
  }

  /** Two filled fields are stored as two present results. */
  lemma TwoFilledArePresent(entry: PerPlayer<FormField>)
    requires FilledCount(entry) >= 2
    ensures exists p, q :: p != q && StoredScores(entry).Of(p).Some? && StoredScores(entry).Of(q).Some?
  {
    var s := StoredScores(entry);
    if entry.matt.Entered? && entry.seth.Entered? { assert s.Of(Matt).Some? && s.Of(Seth).Some?; }
    else if entry.matt.Entered? && entry.mack.Entered? { assert s.Of(Matt).Some? && s.Of(Mack).Some?; }
    else if entry.matt.Entered? && entry.arnav.Entered? { assert s.Of(Matt).Some? && s.Of(Arnav).Some?; }
    else if entry.matt.Entered? && entry.henry.Entered? { assert s.Of(Matt).Some? && s.Of(Henry).Some?; }
    else if entry.seth.Entered? && entry.mack.Entered? { assert s.Of(Seth).Some? && s.Of(Mack).Some?; }
    else if entry.seth.Entered? && entry.arnav.Entered? { assert s.Of(Seth).Some? && s.Of(Arnav).Some?; }
    else if entry.seth.Entered? && entry.henry.Entered? { assert s.Of(Seth).Some? && s.Of(Henry).Some?; }
    else if entry.mack.Entered? && entry.arnav.Entered? { assert s.Of(Mack).Some? && s.Of(Arnav).Some?; }
    else if entry.mack.Entered? && entry.henry.Entered? { assert s.Of(Mack).Some? && s.Of(Henry).Some?; }
    else { assert s.Of(Arnav).Some? && s.Of(Henry).Some?; }
  }
}
