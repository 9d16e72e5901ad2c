/** Memory that is written through to a database, and thrown away and read back when an action fails. */
module Durable {
  import opened Basics

  type Company = string
  type Value = string

  /** One record: its company (worked out from its key), the kind of map it is in, and its key. */
  datatype RowId = RowId(company: Company, kind: string, key: string)

  /** The stored rows; `None` is the null a removed record keeps in its row. */
  type Table = map<RowId, Option<Value>>
  type Memory = map<RowId, Value>

  /** What one `set` or `delete` sends to the database. */
  datatype Write = Put(id: RowId, value: Value) | Tombstone(id: RowId)

  // ------------------------------------------------------------------ the database's side

  /**
   * One statement: an upsert, an insert that keeps the first value of a frozen kind, or a null in an
   * existing row. None when the database refuses it, as it does any change of a frozen row.
   */
  function Land(rows: Table, w: Write, frozen: set<string>): Option<Table> {
    match w
    case Put(id, value) => if id.kind in frozen && id in rows then Some(rows) else Some(rows[id := Some(value)])
    case Tombstone(id) => if id !in rows then Some(rows) else if id.kind in frozen then None else Some(rows[id := None])
  }

  function LandAll(rows: Table, writes: seq<Write>, frozen: set<string>): Option<Table> {
    if writes == [] then Some(rows)
    else
      match LandAll(rows, writes[..|writes| - 1], frozen)
      case None => None
      case Some(before) => Land(before, writes[|writes| - 1], frozen)
  }

  /** What a load reads of a row. */
  function LiveValue(rows: Table, id: RowId): Option<Value> { if id in rows then rows[id] else None }

  function MemoryValue(memory: Memory, id: RowId): Option<Value> { if id in memory then Some(memory[id]) else None }

  function LiveOf(rows: Table, companies: set<Company>): Memory {
    map id | id in rows && id.company in companies && rows[id].Some? :: rows[id].value
  }

  // ------------------------------------------------------------------ the action's side

  datatype Step = SetKey(id: RowId, value: Value) | DeleteKey(id: RowId)

  /** Memory, what has been sent so far, and whether a key of another company was touched, which is refused at once. */
  datatype Working = Working(memory: Memory, pending: seq<Write>, foreign: bool)

  /** Memory changes first; then the write is sent, unless it belongs to another company. */
  function StepOf(w: Working, company: Company, step: Step): Working {
    if w.foreign then w
    else
      match step
      case SetKey(id, value) =>
        var memory := w.memory[id := value];
        if id.company == company then Working(memory, w.pending + [Put(id, value)], false)
          else Working(memory, w.pending, true)
      case DeleteKey(id) =>
        if id !in w.memory then w
        else
          var memory := w.memory - {id};
          if id.company == company then Working(memory, w.pending + [Tombstone(id)], false)
            else Working(memory, w.pending, true)
  }

  function Work(memory: Memory, company: Company, steps: seq<Step>): Working {
    if steps == [] then Working(memory, [], false)
      else StepOf(Work(memory, company, steps[..|steps| - 1]), company, steps[|steps| - 1])
  }

  /** The writes in the order the database gets them. */
  function InOrder(writes: seq<Write>, order: seq<nat>): seq<Write>
    requires |order| == |writes| && forall k :: 0 <= k < |order| ==> order[k] < |writes|
  {
    seq(|order|, k requires 0 <= k < |order| => writes[order[k]])
  }

  /**
   * A value is sealed before it is sent and a removal is not, so a removal may overtake a value sent
   * before it. Nothing else changes places.
   */
  ghost predicate Lands(writes: seq<Write>, order: seq<nat>) {
    && |order| == |writes|
    && (forall k :: 0 <= k < |order| ==> order[k] < |writes|)
    && (forall i :: 0 <= i < |writes| ==> i in order)
    && (forall a, b :: 0 <= a < b < |order| ==> order[a] != order[b])
    && (forall a, b :: 0 <= a < b < |order| && order[b] < order[a] ==>
      writes[order[a]].Tombstone? && writes[order[b]].Put?)
  }

  datatype Store = Store(memory: Memory, rows: Table, loaded: set<Company>)

  function WithoutCompanies(memory: Memory, companies: set<Company>): Memory {
    map id | id in memory && id.company !in companies :: memory[id]
  }

  function ForgottenAndRead(memory: Memory, rows: Table, loaded: set<Company>): Memory {
    WithoutCompanies(memory, loaded) + LiveOf(rows, loaded)
  }

  /**
   * `asOneAction`: everything is committed, or the rows stay as they were and — if anything had been
   * sent — memory is read back. `throws` is the work's own failure, `commits` the database's.
   */
  function ActionOf(s: Store, frozen: set<string>, company: Company, steps: seq<Step>, throws: bool, order: seq<nat>,
                    commits: bool): (Store, bool)
    requires |order| == |Work(s.memory, company, steps).pending| && forall k :: 0 <= k < |order| ==> order[k] < |order|
  {
    var w := Work(s.memory, company, steps);
    var landed := LandAll(s.rows, InOrder(w.pending, order), frozen);
    if !w.foreign && !throws && landed.Some? && commits then (Store(w.memory, landed.value, s.loaded), true)
    else if w.pending == [] then (Store(w.memory, s.rows, s.loaded), false)
    else (Store(ForgottenAndRead(w.memory, s.rows, s.loaded), s.rows, s.loaded), false)
  }

  function LoadOf(s: Store, company: Company): Store {
    if company in s.loaded then s else Store(s.memory + LiveOf(s.rows, {company}), s.rows, s.loaded + {company})
  }

  // ------------------------------------------------------------------ agreement

  /** A loaded company's entries are exactly its live rows; of any other company memory says nothing false. */
  ghost predicate Agrees(s: Store) { forall id: RowId :: KeyAgrees(s, id) }

  predicate KeyAgrees(s: Store, id: RowId) {
    if id.company in s.loaded then MemoryValue(s.memory, id) == LiveValue(s.rows, id)
    else id in s.memory ==> LiveValue(s.rows, id) == Some(s.memory[id])
  }

  /** The last write to a record. */
  function LastOn(writes: seq<Write>, id: RowId): Option<Write> {
    if writes == [] then None
    else if writes[|writes| - 1].id == id then Some(writes[|writes| - 1])
    else LastOn(writes[..|writes| - 1], id)
  }

  function Effect(w: Write): Option<Value> {
    match w case Put(_, value) => Some(value) case Tombstone(_) => None
  }

  function EffectOr(last: Option<Write>, otherwise: Option<Value>): Option<Value> {
    match last case None => otherwise case Some(w) => Effect(w)
  }

  lemma LastOnAppended(writes: seq<Write>, w: Write, id: RowId)
    ensures LastOn(writes + [w], id) == if w.id == id then Some(w) else LastOn(writes, id)
  {
    assert (writes + [w])[..|writes|] == writes;
  }

  /** A step that is not refused sends exactly what it does to memory. */
  lemma StepSendsItsChange(w: Working, company: Company, step: Step, id: RowId, before: Option<Value>)
    requires !StepOf(w, company, step).foreign
    requires MemoryValue(w.memory, id) == EffectOr(LastOn(w.pending, id), before)
    ensures var after := StepOf(w, company, step);
      && MemoryValue(after.memory, id) == EffectOr(LastOn(after.pending, id), before)
      && (after.pending == w.pending || exists sent: Write ::
        sent.id.company == company && after.pending == w.pending + [sent])
  {
    match step
    case SetKey(key, value) => LastOnAppended(w.pending, Put(key, value), id);
    case DeleteKey(key) => LastOnAppended(w.pending, Tombstone(key), id);
  }

  /** Memory shows the last write sent. */
  lemma {:induction false} MemoryShowsLastSent(memory: Memory, company: Company, steps: seq<Step>, id: RowId)
    requires !Work(memory, company, steps).foreign
    ensures var w := Work(memory, company, steps);
      && MemoryValue(w.memory, id) == EffectOr(LastOn(w.pending, id), MemoryValue(memory, id))
      && (forall k :: 0 <= k < |w.pending| ==> w.pending[k].id.company == company)
  {
    if steps != [] {
      var front := steps[..|steps| - 1];
      MemoryShowsLastSent(memory, company, front, id);
      StepSendsItsChange(Work(memory, company, front), company, steps[|steps| - 1], id, MemoryValue(memory, id));
    }
  }

  // ------------------------------------------------------------------ rows once the writes have landed

  /** A record was given a value and then, last, removed in one action. */
  ghost predicate SetThenDeleted(writes: seq<Write>, id: RowId) {
    LastOn(writes, id) == Some(Tombstone(id)) && exists k :: 0 <= k < |writes| && writes[k].Put? && writes[k].id == id
  }

  /** The first value sent for a record. */
  function FirstPut(writes: seq<Write>, id: RowId): Option<Value> {
    if writes == [] then None
    else
      var (front, last) := (writes[..|writes| - 1], writes[|writes| - 1]);
      if FirstPut(front, id).Some? then FirstPut(front, id)
      else if last.Put? && last.id == id then Some(last.value) else None
  }

  /** The row of a record that is not frozen shows the last write that landed. */
  lemma {:induction false} RowShowsLastLanded(rows: Table, writes: seq<Write>, frozen: set<string>, id: RowId)
    requires LandAll(rows, writes, frozen).Some? && id.kind !in frozen
    ensures LiveValue(LandAll(rows, writes, frozen).value, id) == EffectOr(LastOn(writes, id), LiveValue(rows, id))
  {
    if writes != [] { RowShowsLastLanded(rows, writes[..|writes| - 1], frozen, id); }
  }

  /** The row of a frozen record stays as it was, or shows the first value that landed. */
  lemma {:induction false} FrozenRowShowsFirst(rows: Table, writes: seq<Write>, frozen: set<string>, id: RowId)
    requires LandAll(rows, writes, frozen).Some? && id.kind in frozen
    ensures var landed := LandAll(rows, writes, frozen).value;
      && (id in landed <==> id in rows || FirstPut(writes, id).Some?)
      && LiveValue(landed, id) == if id in rows then LiveValue(rows, id) else FirstPut(writes, id)
  {
    if writes != [] { FrozenRowShowsFirst(rows, writes[..|writes| - 1], frozen, id); }
  }

  /** Writes can all land only if none removes a frozen record that has a row. */
  ghost predicate NoFrozenRemoval(rows: Table, writes: seq<Write>, frozen: set<string>) {
    forall k :: 0 <= k < |writes| && writes[k].Tombstone? && writes[k].id.kind in frozen ==> writes[k].id !in rows
  }

  lemma {:induction false} RowsStay(rows: Table, writes: seq<Write>, frozen: set<string>, id: RowId)
    requires LandAll(rows, writes, frozen).Some? && id in rows
    ensures id in LandAll(rows, writes, frozen).value
  {
    if writes != [] { RowsStay(rows, writes[..|writes| - 1], frozen, id); }
  }

  lemma {:induction false} LandedRemovesNoFrozen(rows: Table, writes: seq<Write>, frozen: set<string>)
    requires LandAll(rows, writes, frozen).Some?
    ensures NoFrozenRemoval(rows, writes, frozen)
  {
    if writes != [] {
      var (front, last) := (writes[..|writes| - 1], writes[|writes| - 1]);
      LandedRemovesNoFrozen(rows, front, frozen);
      assert forall k :: 0 <= k < |front| ==> front[k] == writes[k];
      if last.id in rows { RowsStay(rows, front, frozen, last.id); }
    }
  }

  /** Removals that come first find the rows there were; values always land. */
  lemma {:induction false} RemovalsFirstLand(rows: Table, writes: seq<Write>, frozen: set<string>, split: nat)
    requires split <= |writes| && forall k :: 0 <= k < |writes| ==> (writes[k].Tombstone? <==> k < split)
    requires NoFrozenRemoval(rows, writes, frozen)
    ensures LandAll(rows, writes, frozen).Some?
    ensures split == |writes| ==> LandAll(rows, writes, frozen).value.Keys == rows.Keys
  {
    if writes != [] {
      var front := writes[..|writes| - 1];
      assert forall k :: 0 <= k < |front| ==> front[k] == writes[k];
      RemovalsFirstLand(rows, front, frozen, if split == |writes| then split - 1 else split);
    }
  }

  // ------------------------------------------------------------------ the order writes land in

  /** Where the last write to a record is. */
  ghost predicate LastAt(writes: seq<Write>, id: RowId, k: int) {
    0 <= k < |writes| && writes[k].id == id && forall j :: k < j < |writes| ==> writes[j].id != id
  }

  lemma {:induction false} LastOnIs(writes: seq<Write>, id: RowId) returns (k: int)
    ensures match LastOn(writes, id)
      case None => k == -1 && forall j :: 0 <= j < |writes| ==> writes[j].id != id
      case Some(w) => LastAt(writes, id, k) && writes[k] == w
  {
    if writes == [] {
      k := -1;
    } else if writes[|writes| - 1].id == id {
      k := |writes| - 1;
    } else {
      k := LastOnIs(writes[..|writes| - 1], id);
    }
  }

  lemma {:induction false} LastOnAt(writes: seq<Write>, id: RowId, k: nat)
    requires LastAt(writes, id, k)
    ensures LastOn(writes, id) == Some(writes[k])
  {
    if k < |writes| - 1 { LastOnAt(writes[..|writes| - 1], id, k); }
  }

  lemma PlaceOf(order: seq<nat>, k: nat) returns (at: nat)
    requires k in order
    ensures at < |order| && order[at] == k
  {
    at :| 0 <= at < |order| && order[at] == k;
  }

  /** Unless a value may be overtaken by its own removal, the last write sent is the last to land. */
  lemma LastSentLandsLast(writes: seq<Write>, order: seq<nat>, id: RowId)
    requires Lands(writes, order) && !SetThenDeleted(writes, id)
    ensures LastOn(InOrder(writes, order), id) == LastOn(writes, id)
  {
    var landed := InOrder(writes, order);
    assert forall k :: 0 <= k < |landed| ==> landed[k] == writes[order[k]];
    var last := LastOnIs(writes, id);
    if last == -1 {
      var k := LastOnIs(landed, id);
    } else {
      var at := PlaceOf(order, last);
      forall k | at < k < |landed| ensures landed[k].id != id {
        assert landed[k] == writes[order[k]] && order[k] != last;
        assert order[k] < last ==> writes[last].Tombstone? && writes[order[k]].Put?;
      }
      LastOnAt(landed, id, at);
    }
  }

  ghost predicate FirstPutAt(writes: seq<Write>, id: RowId, k: int) {
    && 0 <= k < |writes| && writes[k].Put? && writes[k].id == id
    && forall j :: 0 <= j < k ==> !(writes[j].Put? && writes[j].id == id)
  }

  lemma {:induction false} FirstPutIs(writes: seq<Write>, id: RowId) returns (k: int)
    ensures match FirstPut(writes, id)
      case None => k == -1 && forall j :: 0 <= j < |writes| ==> !(writes[j].Put? && writes[j].id == id)
      case Some(value) => FirstPutAt(writes, id, k) && writes[k].value == value
  {
    if writes == [] {
      k := -1;
    } else {
      k := FirstPutIs(writes[..|writes| - 1], id);
      if k == -1 && writes[|writes| - 1].Put? && writes[|writes| - 1].id == id { k := |writes| - 1; }
    }
  }

  lemma {:induction false} FirstPutOf(writes: seq<Write>, id: RowId, k: nat)
    requires FirstPutAt(writes, id, k)
    ensures FirstPut(writes, id) == Some(writes[k].value)
  {
    var front := writes[..|writes| - 1];
    assert forall j :: 0 <= j < |front| ==> front[j] == writes[j];
    if k < |front| {
      FirstPutOf(front, id, k);
    } else {
      var j := FirstPutIs(front, id);
    }
  }

  /** Values never overtake one another, so the first sent is the first to land. */
  lemma FirstSentLandsFirst(writes: seq<Write>, order: seq<nat>, id: RowId)
    requires Lands(writes, order)
    ensures FirstPut(InOrder(writes, order), id) == FirstPut(writes, id)
  {
    var landed := InOrder(writes, order);
    assert forall k :: 0 <= k < |landed| ==> landed[k] == writes[order[k]];
    var first := FirstPutIs(writes, id);
    if first == -1 {
      var k := FirstPutIs(landed, id);
    } else {
      var at := PlaceOf(order, first);
      forall k | 0 <= k < at ensures !(landed[k].Put? && landed[k].id == id) {
        assert landed[k] == writes[order[k]] && order[k] != first;
        assert first < order[k] ==> writes[order[k]].Tombstone?;
      }
      FirstPutOf(landed, id, at);
    }
  }

  /** All removals, in turn, then all values, in turn: an order they may land in. */
  lemma TombstonesFirst(writes: seq<Write>) returns (order: seq<nat>, split: nat)
    ensures Lands(writes, order) && split <= |order|
    ensures forall k :: 0 <= k < |order| ==> (writes[order[k]].Tombstone? <==> k < split)
  {
    var (removals, values) := (Indices(writes, true), Indices(writes, false));
    order, split := removals + values, |removals|;
    IndicesCount(writes);
    forall a, b | 0 <= a < b < |order|
      ensures order[a] != order[b]
      ensures order[b] < order[a] ==> writes[order[a]].Tombstone? && writes[order[b]].Put?
    {
      PlacesInTurn(writes, removals, values, a, b);
    }
    forall i | 0 <= i < |writes| ensures i in order { assert i in removals || i in values; }
  }

  lemma PlacesInTurn(writes: seq<Write>, removals: seq<nat>, values: seq<nat>, a: nat, b: nat)
    requires removals == Indices(writes, true) && values == Indices(writes, false) && a < b < |removals + values|
    ensures var order := removals + values;
      order[a] < order[b] || (order[a] != order[b] && writes[order[a]].Tombstone? && writes[order[b]].Put?)
  {
    if b < |removals| {
      assert removals[a] < removals[b];
    } else if a >= |removals| {
      assert values[a - |removals|] < values[b - |removals|];
    } else {
      assert writes[removals[a]].Tombstone? && writes[values[b - |removals|]].Put?;
    }
  }

  /** The places of the removals, or of the values, in increasing order. */
  function Indices(writes: seq<Write>, removals: bool): (r: seq<nat>)
    ensures forall k :: 0 <= k < |r| ==> r[k] < |writes| && writes[r[k]].Tombstone? == removals
    ensures forall j, k :: 0 <= j < k < |r| ==> r[j] < r[k]
    ensures forall i :: 0 <= i < |writes| && writes[i].Tombstone? == removals ==> i in r
  {
    if writes == [] then []
    else
      var front := Indices(writes[..|writes| - 1], removals);
      assert forall i :: 0 <= i < |writes| - 1 ==> writes[i] == writes[..|writes| - 1][i];
      if writes[|writes| - 1].Tombstone? == removals then front + [|writes| - 1] else front
  }

  lemma {:induction false} IndicesCount(writes: seq<Write>)
    ensures |Indices(writes, true)| + |Indices(writes, false)| == |writes|
  {
    if writes != [] { IndicesCount(writes[..|writes| - 1]); }
  }

  /** Removals first is an order in which the writes land whenever they can land at all. */
  lemma RemovalsFirst(rows: Table, writes: seq<Write>, frozen: set<string>) returns (order: seq<nat>)
    requires NoFrozenRemoval(rows, writes, frozen)
    ensures Lands(writes, order) && LandAll(rows, InOrder(writes, order), frozen).Some?
    ensures forall id :: SetThenDeleted(writes, id) ==>
              LastOn(InOrder(writes, order), id).Some? && LastOn(InOrder(writes, order), id).value.Put?
  {
    var split;
    order, split := TombstonesFirst(writes);
    var landed := InOrder(writes, order);
    assert forall k :: 0 <= k < |order| ==> landed[k] == writes[order[k]];
    RemovalsFirstLand(rows, landed, frozen, split);
    forall id | SetThenDeleted(writes, id) ensures LastOn(landed, id).Some? && LastOn(landed, id).value.Put? {
      var k :| 0 <= k < |writes| && writes[k].Put? && writes[k].id == id;
      var at := PlaceOf(order, k);
      var last := LastOnIs(landed, id);
      assert landed[at].id == id && landed[at].Put?;
      assert at <= last;
    }
  }

  lemma OrderKeepsRemovals(rows: Table, writes: seq<Write>, order: seq<nat>, frozen: set<string>)
    requires Lands(writes, order) && NoFrozenRemoval(rows, InOrder(writes, order), frozen)
    ensures NoFrozenRemoval(rows, writes, frozen)
  {
    forall k | 0 <= k < |writes| && writes[k].Tombstone? && writes[k].id.kind in frozen ensures writes[k].id !in rows {
      var at := PlaceOf(order, k);
      assert InOrder(writes, order)[at] == writes[k];
    }
  }

  // ------------------------------------------------------------------ one action

  /** If the action commits with its writes landing in this order, a record's memory and row agree. */
  ghost predicate AgreesWhenLanded(s: Store, frozen: set<string>, w: Working, order: seq<nat>, id: RowId)
    requires Lands(w.pending, order)
  {
    var landed := LandAll(s.rows, InOrder(w.pending, order), frozen);
    landed.Some? ==> MemoryValue(w.memory, id) == LiveValue(landed.value, id)
  }

  /**
   * When a record cannot be left wrong by a commit: the writes cannot land at all; or the record is frozen and the
   * last thing sent for it is what its row has, or gets from the first; or it is not, and was not set and then
   * deleted.
   */
  ghost predicate KeepsInStep(rows: Table, writes: seq<Write>, frozen: set<string>, id: RowId) {
    NoFrozenRemoval(rows, writes, frozen) ==>
      if id.kind in frozen then FrozenInStep(rows, writes, id) else !SetThenDeleted(writes, id)
  }

  predicate FrozenInStep(rows: Table, writes: seq<Write>, id: RowId) {
    EffectOr(LastOn(writes, id), LiveValue(rows, id)) ==
      if id in rows then LiveValue(rows, id) else FirstPut(writes, id)
  }

  /** In whatever order a frozen record's writes land, it ends in step under the same condition. */
  lemma FrozenAgreesIff(s: Store, frozen: set<string>, company: Company, steps: seq<Step>, order: seq<nat>, id: RowId)
    requires var w := Work(s.memory, company, steps); !w.foreign && Lands(w.pending, order)
    requires id.kind in frozen && MemoryValue(s.memory, id) == LiveValue(s.rows, id)
    ensures var w := Work(s.memory, company, steps);
      var landed := LandAll(s.rows, InOrder(w.pending, order), frozen);
      landed.Some? ==>
        (MemoryValue(w.memory, id) == LiveValue(landed.value, id) <==> FrozenInStep(s.rows, w.pending, id))
  {
    var w := Work(s.memory, company, steps);
    MemoryShowsLastSent(s.memory, company, steps, id);
    FirstSentLandsFirst(w.pending, order, id);
    if LandAll(s.rows, InOrder(w.pending, order), frozen).Some? {
      FrozenRowShowsFirst(s.rows, InOrder(w.pending, order), frozen, id);
    }
  }

  lemma InStepAgrees(s: Store, frozen: set<string>, company: Company, steps: seq<Step>, order: seq<nat>, id: RowId)
    requires var w := Work(s.memory, company, steps);
      !w.foreign && Lands(w.pending, order) && KeepsInStep(s.rows, w.pending, frozen, id)
    requires MemoryValue(s.memory, id) == LiveValue(s.rows, id)
    ensures AgreesWhenLanded(s, frozen, Work(s.memory, company, steps), order, id)
  {
    var w := Work(s.memory, company, steps);
    var landed := InOrder(w.pending, order);
    if LandAll(s.rows, landed, frozen).Some? {
      LandedRemovesNoFrozen(s.rows, landed, frozen);
      OrderKeepsRemovals(s.rows, w.pending, order, frozen);
      if id.kind in frozen {
        FrozenAgreesIff(s, frozen, company, steps, order, id);
      } else {
        MemoryShowsLastSent(s.memory, company, steps, id);
        LastSentLandsLast(w.pending, order, id);
        RowShowsLastLanded(s.rows, landed, frozen, id);
      }
    }
  }

  /** Where the condition fails, removals first is an order that lands and leaves the record wrong. */
  lemma OutOfStepDiffers(s: Store, frozen: set<string>, company: Company, steps: seq<Step>, id: RowId)
      returns (order: seq<nat>)
    requires var w := Work(s.memory, company, steps); !w.foreign && !KeepsInStep(s.rows, w.pending, frozen, id)
    requires MemoryValue(s.memory, id) == LiveValue(s.rows, id)
    ensures var w := Work(s.memory, company, steps);
      Lands(w.pending, order) && !AgreesWhenLanded(s, frozen, w, order, id)
  {
    var w := Work(s.memory, company, steps);
    order := RemovalsFirst(s.rows, w.pending, frozen);
    if id.kind in frozen {
      FrozenAgreesIff(s, frozen, company, steps, order, id);
    } else {
      MemoryShowsLastSent(s.memory, company, steps, id);
      RowShowsLastLanded(s.rows, InOrder(w.pending, order), frozen, id);
    }
  }

  /**
   * A committed action leaves a record's memory and row in agreement in every order in which its writes may land,
   * exactly when that condition holds; otherwise some order in which they do land leaves them different.
   */
  lemma CommittedAgreesIff(s: Store, frozen: set<string>, company: Company, steps: seq<Step>, id: RowId)
    requires !Work(s.memory, company, steps).foreign && MemoryValue(s.memory, id) == LiveValue(s.rows, id)
    ensures var w := Work(s.memory, company, steps);
      (forall order: seq<nat> :: Lands(w.pending, order) ==> AgreesWhenLanded(s, frozen, w, order, id))
      <==> KeepsInStep(s.rows, w.pending, frozen, id)
  {
    var w := Work(s.memory, company, steps);
    if KeepsInStep(s.rows, w.pending, frozen, id) {
      forall order: seq<nat> | Lands(w.pending, order) ensures AgreesWhenLanded(s, frozen, w, order, id) {
        InStepAgrees(s, frozen, company, steps, order, id);
      }
    } else {
      var order := OutOfStepDiffers(s, frozen, company, steps, id);
    }
  }

  /** Writes that are not sealed land as they were sent, and then a record that is not frozen always agrees. */
  lemma {:induction false} UnsealedAgrees(s: Store, frozen: set<string>, company: Company, steps: seq<Step>, id: RowId)
    requires var w := Work(s.memory, company, steps); !w.foreign && LandAll(s.rows, w.pending, frozen).Some?
    requires MemoryValue(s.memory, id) == LiveValue(s.rows, id)
    ensures var w := Work(s.memory, company, steps);
      MemoryValue(w.memory, id) == LiveValue(LandAll(s.rows, w.pending, frozen).value, id)
      <==> (id.kind in frozen ==> FrozenInStep(s.rows, w.pending, id))
  {
    var w := Work(s.memory, company, steps);
    MemoryShowsLastSent(s.memory, company, steps, id);
    if id.kind in frozen {
      FrozenRowShowsFirst(s.rows, w.pending, frozen, id);
    } else {
      RowShowsLastLanded(s.rows, w.pending, frozen, id);
    }
  }

  /** An action that no commit can leave wrong: its own company's keys only, and every record in step. */
  ghost predicate Careful(s: Store, frozen: set<string>, company: Company, steps: seq<Step>) {
    var w := Work(s.memory, company, steps);
    !w.foreign && forall id: RowId :: KeepsInStep(s.rows, w.pending, frozen, id)
  }

  lemma {:induction false} UntouchedRows(rows: Table, writes: seq<Write>, frozen: set<string>, id: RowId)
    requires LandAll(rows, writes, frozen).Some? && forall k :: 0 <= k < |writes| ==> writes[k].id != id
    ensures LiveValue(LandAll(rows, writes, frozen).value, id) == LiveValue(rows, id)
  {
    if writes != [] { UntouchedRows(rows, writes[..|writes| - 1], frozen, id); }
  }

  /**
   * After a careful action of a loaded company, committed or failed, memory agrees with the rows again;
   * and the rows hold all of the action's writes or none.
   */
  lemma ActionKeepsAgreement(s: Store, frozen: set<string>, company: Company, steps: seq<Step>, throws: bool,
                             order: seq<nat>, commits: bool)
    requires Agrees(s) && company in s.loaded && Careful(s, frozen, company, steps)
    requires Lands(Work(s.memory, company, steps).pending, order)
    ensures var (after, done) := ActionOf(s, frozen, company, steps, throws, order, commits);
      && Agrees(after) && after.loaded == s.loaded
      && (if done then LandAll(s.rows, InOrder(Work(s.memory, company, steps).pending, order), frozen) ==
        Some(after.rows)
          else after.rows == s.rows)
  {
    var w := Work(s.memory, company, steps);
    var (after, done) := ActionOf(s, frozen, company, steps, throws, order, commits);
    forall id: RowId ensures KeyAgrees(after, id) {
      assert KeyAgrees(s, id);
      MemoryShowsLastSent(s.memory, company, steps, id);
      var last := LastOnIs(w.pending, id);
      if done {
        if id.company in s.loaded {
          assert KeepsInStep(s.rows, w.pending, frozen, id);
          InStepAgrees(s, frozen, company, steps, order, id);
        } else {
          UntouchedRows(s.rows, InOrder(w.pending, order), frozen, id);
        }
      }
    }
  }

  /** Memory and rows agree after an action however it ends exactly when the action is careful. */
  lemma ActionAgreesIff(s: Store, frozen: set<string>, company: Company, steps: seq<Step>)
    requires Agrees(s) && company in s.loaded && !Work(s.memory, company, steps).foreign
    ensures var pending := Work(s.memory, company, steps).pending;
      Careful(s, frozen, company, steps) <==>
      forall throws, order: seq<nat>, commits ::
        Lands(pending, order) ==> Agrees(ActionOf(s, frozen, company, steps, throws, order, commits).0)
  {
    var w := Work(s.memory, company, steps);
    if Careful(s, frozen, company, steps) {
      forall throws, order: seq<nat>, commits | Lands(w.pending, order)
        ensures Agrees(ActionOf(s, frozen, company, steps, throws, order, commits).0)
      {
        ActionKeepsAgreement(s, frozen, company, steps, throws, order, commits);
      }
    } else {
      var id: RowId :| !KeepsInStep(s.rows, w.pending, frozen, id);
      OutOfStepIsOwn(s, frozen, company, steps, id);
      assert KeyAgrees(s, id);
      var order := OutOfStepDiffers(s, frozen, company, steps, id);
      assert !KeyAgrees(ActionOf(s, frozen, company, steps, false, order, true).0, id);
    }
  }

  /** Only a record the action wrote, of its own company, can get out of step. */
  lemma OutOfStepIsOwn(s: Store, frozen: set<string>, company: Company, steps: seq<Step>, id: RowId)
    requires var w := Work(s.memory, company, steps); !w.foreign && !KeepsInStep(s.rows, w.pending, frozen, id)
    ensures id.company == company
  {
    var w := Work(s.memory, company, steps);
    MemoryShowsLastSent(s.memory, company, steps, id);
    var last := LastOnIs(w.pending, id);
    var first := FirstPutIs(w.pending, id);
  }

  // ------------------------------------------------------------------ what an action does, told by its steps

  /** What the last step on a record leaves of it. */
  function LeftBy(steps: seq<Step>, id: RowId, before: Option<Value>): Option<Value> {
    if steps == [] then before
    else
      var (front, last) := (steps[..|steps| - 1], steps[|steps| - 1]);
      if last.id != id then LeftBy(front, id, before)
        else match last case SetKey(_, value) => Some(value) case DeleteKey(_) => None
  }

  /** The first value a record is set to. */
  function FirstSet(steps: seq<Step>, id: RowId): Option<Value> {
    if steps == [] then None
    else
      var (front, last) := (steps[..|steps| - 1], steps[|steps| - 1]);
      if FirstSet(front, id).Some? then FirstSet(front, id)
      else if last.SetKey? && last.id == id then Some(last.value) else None
  }

  /** The last value a record is set to. */
  function LastSet(steps: seq<Step>, id: RowId): Option<Value> {
    if steps == [] then None
    else
      var (front, last) := (steps[..|steps| - 1], steps[|steps| - 1]);
      if last.SetKey? && last.id == id then Some(last.value) else LastSet(front, id)
  }

  function LastPut(writes: seq<Write>, id: RowId): Option<Value> {
    if writes == [] then None
    else
      var (front, last) := (writes[..|writes| - 1], writes[|writes| - 1]);
      if last.Put? && last.id == id then Some(last.value) else LastPut(front, id)
  }

  /** Work on keys of the company's own is never refused, and its memory and its writes follow its steps. */
  lemma {:induction false} WorkFollowsSteps(memory: Memory, company: Company, steps: seq<Step>, id: RowId)
    requires forall k :: 0 <= k < |steps| ==> steps[k].id.company == company
    ensures var w := Work(memory, company, steps);
      && !w.foreign
      && MemoryValue(w.memory, id) == LeftBy(steps, id, MemoryValue(memory, id))
      && FirstPut(w.pending, id) == FirstSet(steps, id) && LastPut(w.pending, id) == LastSet(steps, id)
  {
    if steps != [] {
      var (front, last) := (steps[..|steps| - 1], steps[|steps| - 1]);
      assert forall k :: 0 <= k < |front| ==> front[k] == steps[k];
      WorkFollowsSteps(memory, company, front, id);
      StepFollows(Work(memory, company, front), company, last, id);
    }
  }

  lemma StepFollows(w: Working, company: Company, step: Step, id: RowId)
    requires !w.foreign && step.id.company == company
    ensures var after := StepOf(w, company, step);
      && !after.foreign
      && MemoryValue(after.memory, id) ==
        (if step.id != id then MemoryValue(w.memory, id)
          else match step case SetKey(_, v) => Some(v) case DeleteKey(_) => None)
      && FirstPut(after.pending, id) ==
        (if FirstPut(w.pending, id).Some? then FirstPut(w.pending, id)
          else if step.SetKey? && step.id == id then Some(step.value) else None)
      && LastPut(after.pending, id) ==
        (if step.SetKey? && step.id == id then Some(step.value) else LastPut(w.pending, id))
  {
    match step
    case SetKey(key, value) => assert (w.pending + [Put(key, value)])[..|w.pending|] == w.pending;
    case DeleteKey(key) => assert (w.pending + [Tombstone(key)])[..|w.pending|] == w.pending;
  }

  lemma {:induction false} LastPutIs(writes: seq<Write>, id: RowId) returns (k: int)
    ensures match LastPut(writes, id)
      case None => k == -1 && forall j :: 0 <= j < |writes| ==> !(writes[j].Put? && writes[j].id == id)
      case Some(value) => LastPutAt(writes, id, k) && writes[k].value == value
  {
    if writes == [] {
      k := -1;
    } else if writes[|writes| - 1].Put? && writes[|writes| - 1].id == id {
      k := |writes| - 1;
    } else {
      k := LastPutIs(writes[..|writes| - 1], id);
    }
  }

  ghost predicate LastPutAt(writes: seq<Write>, id: RowId, k: int) {
    && 0 <= k < |writes| && writes[k].Put? && writes[k].id == id
    && forall j :: k < j < |writes| ==> !(writes[j].Put? && writes[j].id == id)
  }

  /** Of a record's writes the last to land is a removal, or the last value that was sent. */
  lemma LastLandedIs(writes: seq<Write>, order: seq<nat>, id: RowId)
    requires Lands(writes, order)
    ensures var last := LastOn(InOrder(writes, order), id);
      last.Some? ==> last == Some(Tombstone(id)) || LastPut(writes, id) == Effect(last.value)
  {
    var landed := InOrder(writes, order);
    assert forall k :: 0 <= k < |landed| ==> landed[k] == writes[order[k]];
    var at := LastOnIs(landed, id);
    var last := LastPutIs(writes, id);
    if at >= 0 && landed[at].Put? && last >= 0 {
      var place := PlaceOf(order, last);
      assert landed[place].id == id;
      assert order[at] == last;
    }
  }

  /** A record was set, and then, last of all, deleted. */
  predicate SetAndLastDeleted(steps: seq<Step>, id: RowId)
  {
    FirstSet(steps, id).Some? && LeftBy(steps, id, Some("")).None?
  }

  lemma {:induction false} NoPutNoLast(steps: seq<Step>, id: RowId, a: Option<Value>, b: Option<Value>)
    ensures LeftBy(steps, id, a) == LeftBy(steps, id, b) || (LeftBy(steps, id, a) == a && LeftBy(steps, id, b) == b)
    ensures FirstSet(steps, id).Some? ==> LeftBy(steps, id, a) == LeftBy(steps, id, b)
  {
    if steps != [] { NoPutNoLast(steps[..|steps| - 1], id, a, b); }
  }

  /**
   * Work of the company's own that does not throw, whose writes land and are committed, is done; and then memory and
   * rows follow its steps. Memory shows the last step on each record. The row of a record that is not frozen shows it
   * too, unless the record was set and last deleted: then it may be the last value set that stays. The row of a frozen
   * record stays as it was, or has the first value set.
   */
  lemma CommittedFollowsSteps(s: Store, frozen: set<string>, company: Company, steps: seq<Step>, order: seq<nat>,
                              id: RowId)
    requires KeyAgrees(s, id) && id.company in s.loaded
    requires forall k :: 0 <= k < |steps| ==> steps[k].id.company == company
    requires var w := Work(s.memory, company, steps);
      Lands(w.pending, order) && LandAll(s.rows, InOrder(w.pending, order), frozen).Some?
    ensures var (after, done) := ActionOf(s, frozen, company, steps, false, order, true);
      var before := LiveValue(s.rows, id);
      && done && after.loaded == s.loaded
      && MemoryValue(after.memory, id) == LeftBy(steps, id, before)
      && (id.kind in frozen ==> LiveValue(after.rows, id) == if id in s.rows then before else FirstSet(steps, id))
      && (id.kind !in frozen && !SetAndLastDeleted(steps, id) ==>
        LiveValue(after.rows, id) == LeftBy(steps, id, before))
      && (id.kind !in frozen && SetAndLastDeleted(steps, id) ==>
        LiveValue(after.rows, id) in {None, LastSet(steps, id)})
  {
    var w := Work(s.memory, company, steps);
    var (landed, before) := (InOrder(w.pending, order), LiveValue(s.rows, id));
    WorkFollowsSteps(s.memory, company, steps, id);
    MemoryShowsLastSent(s.memory, company, steps, id);
    FirstSentLandsFirst(w.pending, order, id);
    NoPutNoLast(steps, id, before, Some(""));
    var first := FirstPutIs(w.pending, id);
    if id.kind in frozen {
      FrozenRowShowsFirst(s.rows, landed, frozen, id);
    } else {
      RowShowsLastLanded(s.rows, landed, frozen, id);
      if SetAndLastDeleted(steps, id) {
        LastLandedIs(w.pending, order, id);
        PutLands(w.pending, order, id);
      } else {
        LastSentLandsLast(w.pending, order, id);
      }
    }
  }

  lemma PutLands(writes: seq<Write>, order: seq<nat>, id: RowId)
    requires Lands(writes, order) && FirstPut(writes, id).Some?
    ensures LastOn(InOrder(writes, order), id).Some?
  {
    var landed := InOrder(writes, order);
    assert forall k :: 0 <= k < |landed| ==> landed[k] == writes[order[k]];
    var first := FirstPutIs(writes, id);
    var place := PlaceOf(order, first);
    var last := LastOnIs(landed, id);
    assert landed[place].id == id;
  }

  /**
   * Work that throws, or whose writes do not land, or whose commit the database does not take, is not done: the rows
   * are the old ones, and every key of the company's own, if it is loaded, is in memory as in the old rows.
   */
  lemma UncommittedIsUndone(s: Store, frozen: set<string>, company: Company, steps: seq<Step>, throws: bool,
                            order: seq<nat>, commits: bool, id: RowId)
    requires KeyAgrees(s, id) && id.company == company && company in s.loaded
    requires Lands(Work(s.memory, company, steps).pending, order)
    requires throws || !commits || LandAll(s.rows, InOrder(Work(s.memory, company, steps).pending, order), frozen).None?
    ensures var (after, done) := ActionOf(s, frozen, company, steps, throws, order, commits);
      !done && after.rows == s.rows && after.loaded == s.loaded
        && MemoryValue(after.memory, id) == LiveValue(s.rows, id)
  {
    if Work(s.memory, company, steps).pending == [] { NothingSentNothingChanged(s.memory, company, steps, id); }
  }

  lemma {:induction false} NothingSentNothingChanged(memory: Memory, company: Company, steps: seq<Step>, id: RowId)
    requires Work(memory, company, steps).pending == [] && id.company == company
    ensures MemoryValue(Work(memory, company, steps).memory, id) == MemoryValue(memory, id)
  {
    if steps != [] { NothingSentNothingChanged(memory, company, steps[..|steps| - 1], id); }
  }

  // ------------------------------------------------------------------ actions that fail

  lemma {:induction false} OnlyTouched(memory: Memory, company: Company, steps: seq<Step>, id: RowId)
    requires forall k :: 0 <= k < |steps| ==> steps[k].id != id
    ensures MemoryValue(Work(memory, company, steps).memory, id) == MemoryValue(memory, id)
  {
    if steps != [] { OnlyTouched(memory, company, steps[..|steps| - 1], id); }
  }

  /**
   * A failed action, of any company, leaves memory and rows in agreement exactly when each key it touched is read
   * back — something was sent and the key's company is loaded — or has in memory what its row says anyway.
   */
  lemma FailedAgreesIff(s: Store, frozen: set<string>, company: Company, steps: seq<Step>, throws: bool,
                        order: seq<nat>, commits: bool)
    requires Agrees(s) && Lands(Work(s.memory, company, steps).pending, order)
    requires !ActionOf(s, frozen, company, steps, throws, order, commits).1
    ensures var w := Work(s.memory, company, steps);
      Agrees(ActionOf(s, frozen, company, steps, throws, order, commits).0) <==>
      forall k :: 0 <= k < |steps| ==>
        || (w.pending != [] && steps[k].id.company in s.loaded)
        || KeyAgrees(Store(w.memory, s.rows, s.loaded), steps[k].id)
  {
    var w := Work(s.memory, company, steps);
    var after := ActionOf(s, frozen, company, steps, throws, order, commits).0;
    forall id ensures KeyAgrees(after, id) <==>
      (w.pending != [] && id.company in s.loaded) || KeyAgrees(Store(w.memory, s.rows, s.loaded), id) {}
    if forall k :: 0 <= k < |steps| ==> KeyAgrees(after, steps[k].id) {
      forall id ensures KeyAgrees(after, id) {
        assert KeyAgrees(s, id);
        if forall k :: 0 <= k < |steps| ==> steps[k].id != id { OnlyTouched(s.memory, company, steps, id); }
      }
    }
  }

  /** Which step was refused, as one that writes a key of another company. */
  function RefusedAt(memory: Memory, company: Company, steps: seq<Step>): (r: nat)
    requires Work(memory, company, steps).foreign
    ensures r < |steps|
  {
    var front := steps[..|steps| - 1];
    if Work(memory, company, front).foreign then RefusedAt(memory, company, front) else |steps| - 1
  }

  /** What a step leaves in memory. */
  function Leaves(step: Step): Option<Value> {
    match step case SetKey(_, value) => Some(value) case DeleteKey(_) => None
  }

  /** Up to the refused step the work is the company's own; the refused step changes memory and sends nothing. */
  lemma {:induction false} RefusedIs(memory: Memory, company: Company, steps: seq<Step>)
    requires Work(memory, company, steps).foreign
    ensures var (w, r) := (Work(memory, company, steps), RefusedAt(memory, company, steps));
      var before := Work(memory, company, steps[..r]);
      && !before.foreign && before.pending == w.pending && steps[r].id.company != company
      && (forall id ::
            MemoryValue(w.memory, id) ==
            if id == steps[r].id then Leaves(steps[r]) else MemoryValue(before.memory, id))
  {
    var front := steps[..|steps| - 1];
    if Work(memory, company, front).foreign {
      RefusedIs(memory, company, front);
      assert front[..RefusedAt(memory, company, front)] == steps[..RefusedAt(memory, company, front)];
    }
  }

  /**
   * An action of a loaded company in which a key of another company was refused leaves memory and rows in agreement
   * exactly when something of its own had been sent and the other company is loaded, so that the key is read back;
   * or the refused step left in memory what the row says; or it removed the key of a company that is not loaded, of
   * which memory may be silent.
   */
  lemma ForeignAgreesIff(s: Store, frozen: set<string>, company: Company, steps: seq<Step>, throws: bool,
                         order: seq<nat>, commits: bool)
    requires Agrees(s) && company in s.loaded
    requires var w := Work(s.memory, company, steps); w.foreign && Lands(w.pending, order)
    ensures var w := Work(s.memory, company, steps);
      var step := steps[RefusedAt(s.memory, company, steps)];
      var (after, done) := ActionOf(s, frozen, company, steps, throws, order, commits);
      && !done && after.rows == s.rows
      && (Agrees(after) <==>
          || (w.pending != [] && step.id.company in s.loaded)
          || Leaves(step) == LiveValue(s.rows, step.id)
          || (step.DeleteKey? && step.id.company !in s.loaded))
  {
    var (w, r) := (Work(s.memory, company, steps), RefusedAt(s.memory, company, steps));
    var after := ActionOf(s, frozen, company, steps, throws, order, commits).0;
    var refused := steps[r].id;
    RefusedIs(s.memory, company, steps);
    forall id | id != refused ensures KeyAgrees(after, id) {
      assert KeyAgrees(s, id);
      MemoryShowsLastSent(s.memory, company, steps[..r], id);
      var last := LastOnIs(w.pending, id);
    }
    assert Agrees(after) <==> KeyAgrees(after, refused);
    assert MemoryValue(w.memory, refused) == Leaves(steps[r]);
  }

  /**
   * The value of a refused `set` for a company that was not loaded is still there when that company is loaded, unless
   * its record has a live row to read over it.
   */
  lemma RefusedSetOutlivesLoad(s: Store, frozen: set<string>, company: Company, steps: seq<Step>, throws: bool,
                               order: seq<nat>, commits: bool)
    requires Agrees(s) && company in s.loaded
    requires var w := Work(s.memory, company, steps); w.foreign && Lands(w.pending, order)
    requires var step := steps[RefusedAt(s.memory, company, steps)]; step.SetKey? && step.id.company !in s.loaded
    ensures var step := steps[RefusedAt(s.memory, company, steps)];
      var after := ActionOf(s, frozen, company, steps, throws, order, commits).0;
      Agrees(LoadOf(after, step.id.company)) <==> LiveValue(s.rows, step.id).Some?
  {
    var (w, r) := (Work(s.memory, company, steps), RefusedAt(s.memory, company, steps));
    var after := ActionOf(s, frozen, company, steps, throws, order, commits).0;
    var refused := steps[r].id;
    RefusedIs(s.memory, company, steps);
    var loaded := LoadOf(after, refused.company);
    forall id | id != refused ensures KeyAgrees(loaded, id) {
      assert KeyAgrees(s, id);
      MemoryShowsLastSent(s.memory, company, steps[..r], id);
      var last := LastOnIs(w.pending, id);
    }
    assert MemoryValue(w.memory, refused).Some?;
    assert Agrees(loaded) <==> KeyAgrees(loaded, refused);
  }

  /** One refused `set`, or one refused `delete` of a live record, with nothing sent: memory keeps the change. */
  lemma ForeignExamples(company: Company, id: RowId, a: Value, b: Value, order: seq<nat>)
    requires id.company != company && a != b
    ensures var s := Store(map[id := a], map[id := Some(a)], {company, id.company});
      && Agrees(s)
      && (forall step :: step in {SetKey(id, b), DeleteKey(id)} ==>
            Work(s.memory, company, [step]) == Working(if step.SetKey? then map[id := b] else map[], [], true)
            && !Agrees(ActionOf(s, {}, company, [step], false, [], true).0))
  {
    var s := Store(map[id := a], map[id := Some(a)], {company, id.company});
    forall step | step in {SetKey(id, b), DeleteKey(id)}
      ensures Work(s.memory, company, [step]) == Working(if step.SetKey? then map[id := b] else map[], [], true)
              && !Agrees(ActionOf(s, {}, company, [step], false, [], true).0)
    {
      assert [step][..0] == [];
      assert Work(s.memory, company, []) == Working(s.memory, [], false);
      assert s.memory - {id} == map[];
      ForeignAgreesIff(s, {}, company, [step], false, [], true);
    }
  }

  /** Setting a frozen record twice in one action commits the first value and shows the second. */
  lemma FrozenSetTwice(id: RowId, a: Value, b: Value)
    requires a != b
    ensures var s := Store(map[], map[], {id.company}); var steps := [SetKey(id, a), SetKey(id, b)];
      Work(s.memory, id.company, steps).pending == [Put(id, a), Put(id, b)] &&
      var (after, done) := ActionOf(s, {id.kind}, id.company, steps, false, [0, 1], true);
      done && after.rows == map[id := Some(a)] && after.memory == map[id := b]
  {
    var s := Store(map[], map[], {id.company});
    var steps := [SetKey(id, a), SetKey(id, b)];
    assert steps[..1] == [steps[0]] && [steps[0]][..0] == [];
    assert Work(s.memory, id.company, [steps[0]]) == Working(map[id := a], [Put(id, a)], false);
    var landed := InOrder([Put(id, a), Put(id, b)], [0, 1]);
    assert landed == [Put(id, a), Put(id, b)] && landed[..1] == [Put(id, a)] && [Put(id, a)][..0] == [];
    assert LandAll(s.rows, [Put(id, a)], {id.kind}) == Some(map[id := Some(a)]);
  }

  // ------------------------------------------------------------------ runs, with restarts

  datatype Event =
    | Act(company: Company, steps: seq<Step>, throws: bool, order: seq<nat>, commits: bool)
    | Load(company: Company)
    | Restart

  /** What an event may be: a load, a restart, or a careful action of a company that has been loaded. */
  ghost predicate Allowed(s: Store, frozen: set<string>, e: Event) {
    e.Act? ==>
      && e.company in s.loaded && Careful(s, frozen, e.company, e.steps)
      && Lands(Work(s.memory, e.company, e.steps).pending, e.order)
  }

  ghost function After(s: Store, frozen: set<string>, e: Event): Store
    requires Allowed(s, frozen, e)
  {
    match e
    case Act(company, steps, throws, order, commits) => ActionOf(s, frozen, company, steps, throws, order, commits).0
    case Load(company) => LoadOf(s, company)
    case Restart => Store(map[], s.rows, {})
  }

  ghost predicate IsRun(states: seq<Store>, frozen: set<string>, events: seq<Event>) {
    && |states| == |events| + 1
    && forall k :: 0 <= k < |events| ==>
      Allowed(states[k], frozen, events[k]) && states[k + 1] == After(states[k], frozen, events[k])
  }

  lemma LoadKeepsAgreement(s: Store, company: Company)
    requires Agrees(s)
    ensures Agrees(LoadOf(s, company)) && company in LoadOf(s, company).loaded
  {
    forall id ensures KeyAgrees(LoadOf(s, company), id) { assert KeyAgrees(s, id); }
  }

  /** Through any run of actions, failures, loads and restarts, memory and database agree after every event. */
  lemma {:induction false} RunKeepsAgreement(states: seq<Store>, frozen: set<string>, events: seq<Event>, k: nat)
    requires IsRun(states, frozen, events) && Agrees(states[0]) && k < |states|
    ensures Agrees(states[k])
  {
    if k > 0 {
      RunKeepsAgreement(states, frozen, events, k - 1);
      var (s, e) := (states[k - 1], events[k - 1]);
      assert Allowed(s, frozen, e) && states[k] == After(s, frozen, e);
      match e
      case Act(company, steps, throws, order, commits) =>
        ActionKeepsAgreement(s, frozen, company, steps, throws, order, commits);
      case Load(company) => LoadKeepsAgreement(s, company);
      case Restart =>
    }
  }

  // ------------------------------------------------------------------ the maps as they are kept

  /** The durable maps of one process, with the rows they write to and the writes of the action in flight. */
  class DurableMaps {
    const frozen: set<string>
    var memory: Memory
    var rows: Table
    var loaded: set<Company>
    var pending: seq<Write>

    constructor (frozen: set<string>, rows: Table)
      ensures this.frozen == frozen && View() == Store(map[], rows, {}) && pending == []
    {
      this.frozen := frozen;
      memory, this.rows, loaded, pending := map[], rows, {}, [];
    }

    function View(): Store
      reads this
    {
      Store(memory, rows, loaded)
    }

    /** `persist` inside an action: the write joins what the action waits for, or is refused at once. */
    method Persist(company: Company, w: Write) returns (refused: bool)
      modifies this`pending
      ensures refused <==> w.id.company != company
      ensures pending == if refused then old(pending) else old(pending) + [w]
    {
      if w.id.company != company { return true; }
      pending := pending + [w];
      refused := false;
    }

    /** `set`: memory first, then the write. */
    method Set(company: Company, id: RowId, value: Value) returns (refused: bool)
      modifies this`memory, this`pending
      ensures Working(memory, pending, refused) ==
        StepOf(Working(old(memory), old(pending), false), company, SetKey(id, value))
    {
      memory := memory[id := value];
      refused := Persist(company, Put(id, value));
    }

    /** `delete`: nothing is sent for a key that was not there. */
    method Delete(company: Company, id: RowId) returns (refused: bool)
      modifies this`memory, this`pending
      ensures Working(memory, pending, refused) ==
        StepOf(Working(old(memory), old(pending), false), company, DeleteKey(id))
    {
      if id !in memory { return false; }
      memory := memory - {id};
      refused := Persist(company, Tombstone(id));
    }

    /** `forget` for every map: one company's entries go, the database is not touched. */
    method Forget(company: Company)
      modifies this`memory
      ensures memory == WithoutCompanies(old(memory), {company})
    {
      var keys := memory.Keys;
      ghost var before := memory;
      while keys != {}
        invariant keys <= before.Keys
        invariant memory == map id | id in before && (id in keys || id.company != company) :: before[id]
        decreases |keys|
      {
        var id :| id in keys;
        keys := keys - {id};
        if id.company == company { memory := memory - {id}; }
      }
    }

    /** The reloader: every live row of the company is put back into memory. */
    method Reload(company: Company)
      modifies this`memory
      ensures memory == old(memory) + LiveOf(rows, {company})
    {
      ReplayAll(LiveOf(rows, {company}));
    }

    method ReplayAll(live: Memory)
      modifies this`memory
      ensures memory == old(memory) + live
    {
      var ids := live.Keys;
      ghost var before := memory;
      while ids != {}
        invariant ids <= live.Keys && memory == before + (live - ids)
        decreases |ids|
      {
        var id :| id in ids;
        PutBackOne(before, live, ids, id);
        memory := memory[id := live[id]];
        ids := ids - {id};
      }
      assert live - {} == live;
    }

    method LoadCompany(company: Company)
      modifies this`memory, this`loaded
      ensures View() == LoadOf(old(View()), company)
    {
      if company in loaded { return; }
      Reload(company);
      loaded := loaded + {company};
    }

    /** `forgetUnsavedWrites`: every loaded company is forgotten, then read back. */
    method ForgetUnsavedWrites()
      modifies this`memory, this`loaded
      ensures loaded == old(loaded) && memory == ForgottenAndRead(old(memory), rows, old(loaded))
    {
      var companies := loaded;
      loaded := {};
      ForgetAll(companies);
      LoadAll(companies);
    }

    method ForgetAll(companies: set<Company>)
      modifies this`memory
      ensures memory == WithoutCompanies(old(memory), companies)
    {
      ghost var before := memory;
      var left := companies;
      assert WithoutCompanies(before, companies - left) == before;
      while left != {}
        invariant left <= companies
        invariant memory == WithoutCompanies(before, companies - left)
        decreases |left|
      {
        var company :| company in left;
        ForgetOneMore(before, companies - left, company);
        Forget(company);
        assert companies - (left - {company}) == companies - left + {company};
        left := left - {company};
      }
      assert companies - left == companies;
    }

    method LoadAll(companies: set<Company>)
      requires loaded == {}
      modifies this`memory, this`loaded
      ensures loaded == companies && memory == old(memory) + LiveOf(rows, companies)
    {
      ghost var kept := memory;
      var left := companies;
      assert kept + LiveOf(rows, companies - left) == kept;
      while left != {}
        invariant left <= companies && loaded == companies - left
        invariant memory == kept + LiveOf(rows, companies - left)
        decreases |left|
      {
        var company :| company in left;
        LoadOneMore(kept, rows, companies - left, company);
        LoadCompany(company);
        assert companies - (left - {company}) == companies - left + {company};
        left := left - {company};
      }
      assert companies - left == companies;
    }

    /**
     * `asOneAction` around work that makes these changes and then ends or throws; `order` is how its
     * writes happen to land and `commits` whether the database takes the commit.
     */
    method AsOneAction(company: Company, steps: seq<Step>, throws: bool, order: seq<nat>, commits: bool)
        returns (done: bool)
      requires |order| == |Work(memory, company, steps).pending| && forall k :: 0 <= k < |order| ==> order[k] < |order|
      modifies this
      ensures (View(), done) == ActionOf(old(View()), frozen, company, steps, throws, order, commits)
    {
      pending := [];
      var refused := false;
      var i := 0;
      while i < |steps| && !refused
        invariant 0 <= i <= |steps|
        invariant rows == old(rows) && loaded == old(loaded)
        invariant Working(memory, pending, refused) == Work(old(memory), company, steps[..i])
      {
        assert steps[..i + 1][..i] == steps[..i];
        match steps[i] {
          case SetKey(id, value) => refused := Set(company, id, value);
          case DeleteKey(id) => refused := Delete(company, id);
        }
        i := i + 1;
      }
      AfterRefusal(old(memory), company, steps, i);
      if !refused && !throws {
        var landed := LandAll(rows, InOrder(pending, order), frozen);
        if landed.Some? && commits {
          rows := landed.value;
          return true;
        }
      }
      if pending != [] { ForgetUnsavedWrites(); }
      done := false;
    }
  }

  lemma PutBackOne(before: Memory, live: Memory, ids: set<RowId>, id: RowId)
    requires ids <= live.Keys && id in ids
    ensures (before + (live - ids))[id := live[id]] == before + (live - (ids - {id}))
  {}

  lemma ForgetOneMore(memory: Memory, companies: set<Company>, company: Company)
    ensures WithoutCompanies(WithoutCompanies(memory, companies), {company}) ==
      WithoutCompanies(memory, companies + {company})
  {}

  lemma LoadOneMore(memory: Memory, rows: Table, companies: set<Company>, company: Company)
    ensures memory + LiveOf(rows, companies) + LiveOf(rows, {company}) == memory + LiveOf(rows, companies + {company})
  {}

  /** Once a key of another company has been refused, the rest of the work does not happen. */
  lemma {:induction false} AfterRefusal(memory: Memory, company: Company, steps: seq<Step>, i: nat)
    requires i <= |steps| && (i == |steps| || Work(memory, company, steps[..i]).foreign)
    ensures Work(memory, company, steps) == Work(memory, company, steps[..i])
  {
    if i < |steps| {
      var front := steps[..|steps| - 1];
      assert front[..i] == steps[..i];
      AfterRefusal(memory, company, front, i);
    } else {
      assert steps[..i] == steps;
    }
  }
}
