/**
 * The aggregator: the per-record activity counts of the three datasets
 * (enrolment, biometric updates, demographic updates) collapsed into the
 * state view, the (state, district) view and the (state, month) view.
 * Each view is a groupby-sum per dataset followed by an outer merge on the
 * grouping key with missing fields filled with zero.
 */
module Aggregation {
  import opened Grouping

  /** State and district names, already trimmed and title-cased. */
  type State = string
  type District = string
  /** A calendar month, as an opaque period index. */
  type Month = int

  /** One row of the enrolment dataset: counts per age bracket. */
  datatype EnrolmentRecord = EnrolmentRecord(
    state: State, district: District, month: Month,
    age0to5: nat, age5to17: nat, age18plus: nat)

  /** One row of the biometric or the demographic update dataset. */
  datatype UpdateRecord = UpdateRecord(
    state: State, district: District, month: Month,
    age5to17: nat, age17plus: nat)

  function EnrolmentState(r: EnrolmentRecord): State { r.state }
  function UpdateState(r: UpdateRecord): State { r.state }
  function Age0to5(r: EnrolmentRecord): nat { r.age0to5 }
  function Age5to17(r: EnrolmentRecord): nat { r.age5to17 }
  function Age18Plus(r: EnrolmentRecord): nat { r.age18plus }
  function Youth(r: UpdateRecord): nat { r.age5to17 }
  function Adult(r: UpdateRecord): nat { r.age17plus }

  /** The per-record total_enrolment column added during preprocessing. */
  function RecordEnrolment(r: EnrolmentRecord): nat { r.age0to5 + r.age5to17 + r.age18plus }

  /** The per-record total_bio / total_demo column added during preprocessing. */
  function RecordUpdates(r: UpdateRecord): nat { r.age5to17 + r.age17plus }

  /** One row of the state view. */
  datatype StateRow = StateRow(
    state: State,
    age0to5: nat, age5to17: nat, age18plus: nat, totalEnrolment: nat,
    bioAge5to17: nat, bioAge17plus: nat, totalBio: nat,
    demoAge5to17: nat, demoAge17plus: nat, totalDemo: nat,
    totalUpdates: nat)

  /** The derived totals of a state row agree with its bracket counts. */
  predicate Consistent(row: StateRow)
  {
    && row.totalEnrolment == row.age0to5 + row.age5to17 + row.age18plus
    && row.totalBio == row.bioAge5to17 + row.bioAge17plus
    && row.totalDemo == row.demoAge5to17 + row.demoAge17plus
    && row.totalUpdates == row.totalBio + row.totalDemo
  }

  function RowEnrolment(row: StateRow): nat { row.totalEnrolment }
  function RowUpdates(row: StateRow): nat { row.totalUpdates }
  function RowBio(row: StateRow): nat { row.totalBio }
  function RowDemo(row: StateRow): nat { row.totalDemo }

  function EnrolmentStates(enrolment: seq<EnrolmentRecord>): seq<State> { KeysOf(enrolment, EnrolmentState) }
  function UpdateStates(updates: seq<UpdateRecord>): seq<State> { KeysOf(updates, UpdateState) }

  /**
   * The state-view row of state s: every field is the sum of that field over
   * the records of s, and a dataset in which s does not occur contributes
   * zeros.
   */
  function StateRowOf(s: State, enrolment: seq<EnrolmentRecord>, biometric: seq<UpdateRecord>, demographic: seq<UpdateRecord>): (row: StateRow)
    ensures row.state == s
    ensures Consistent(row)
    ensures s !in EnrolmentStates(enrolment) ==> row.age0to5 == row.age5to17 == row.age18plus == row.totalEnrolment == 0
    ensures s !in UpdateStates(biometric) ==> row.bioAge5to17 == row.bioAge17plus == row.totalBio == 0
    ensures s !in UpdateStates(demographic) ==> row.demoAge5to17 == row.demoAge17plus == row.totalDemo == 0
  {
    GroupSumAdditive3(enrolment, EnrolmentState, s, RecordEnrolment, Age0to5, Age5to17, Age18Plus);
    GroupSumAdditive(biometric, UpdateState, s, RecordUpdates, Youth, Adult);
    GroupSumAdditive(demographic, UpdateState, s, RecordUpdates, Youth, Adult);
    var totalBio := GroupSum(biometric, UpdateState, s, RecordUpdates);
    var totalDemo := GroupSum(demographic, UpdateState, s, RecordUpdates);
    StateRow(
      s,
      GroupSum(enrolment, EnrolmentState, s, Age0to5),
      GroupSum(enrolment, EnrolmentState, s, Age5to17),
      GroupSum(enrolment, EnrolmentState, s, Age18Plus),
      GroupSum(enrolment, EnrolmentState, s, RecordEnrolment),
      GroupSum(biometric, UpdateState, s, Youth),
      GroupSum(biometric, UpdateState, s, Adult),
      totalBio,
      GroupSum(demographic, UpdateState, s, Youth),
      GroupSum(demographic, UpdateState, s, Adult),
      totalDemo,
      totalBio + totalDemo)
  }

  function StateRows(keys: seq<State>, enrolment: seq<EnrolmentRecord>, biometric: seq<UpdateRecord>, demographic: seq<UpdateRecord>): (rows: seq<StateRow>)
    ensures |rows| == |keys|
    ensures forall i | 0 <= i < |keys| :: rows[i] == StateRowOf(keys[i], enrolment, biometric, demographic)
  {
    if keys == [] then []
    else [StateRowOf(keys[0], enrolment, biometric, demographic)] + StateRows(keys[1..], enrolment, biometric, demographic)
  }

  function RowState(row: StateRow): State { row.state }

  /** The states of a table, in row order. */
  function StatesOf(rows: seq<StateRow>): seq<State> { KeysOf(rows, RowState) }

  /**
   * The state view: one row per state that occurs in any of the three
   * datasets (an outer union of keys), each row holding its state's sums.
   */
  function AggregateByState(enrolment: seq<EnrolmentRecord>, biometric: seq<UpdateRecord>, demographic: seq<UpdateRecord>): (rows: seq<StateRow>)
    ensures NoDups(StatesOf(rows))
    ensures forall s :: s in StatesOf(rows) <==>
      s in EnrolmentStates(enrolment) || s in UpdateStates(biometric) || s in UpdateStates(demographic)
    ensures forall i | 0 <= i < |rows| :: rows[i] == StateRowOf(rows[i].state, enrolment, biometric, demographic)
    ensures forall i | 0 <= i < |rows| :: Consistent(rows[i])
  {
    var all := EnrolmentStates(enrolment) + UpdateStates(biometric) + UpdateStates(demographic);
    var keys := StateKeys(enrolment, biometric, demographic);
    var rows := StateRows(keys, enrolment, biometric, demographic);
    assert StatesOf(rows) == keys;
    DistinctMembers(all);
    rows
  }

  /** Constant coarse keys: every state and every record falls in the single group `true`. */
  function AnyState(s: State): bool { true }
  function AnyEnrolment(r: EnrolmentRecord): bool { true }
  function AnyUpdate(r: UpdateRecord): bool { true }

  /** The states of the state view, in first-appearance order. */
  function StateKeys(enrolment: seq<EnrolmentRecord>, biometric: seq<UpdateRecord>, demographic: seq<UpdateRecord>): seq<State>
  {
    Distinct(EnrolmentStates(enrolment) + UpdateStates(biometric) + UpdateStates(demographic))
  }

  /** The state view is the rows of its keys. */
  lemma StateViewRows(enrolment: seq<EnrolmentRecord>, biometric: seq<UpdateRecord>, demographic: seq<UpdateRecord>)
    ensures AggregateByState(enrolment, biometric, demographic) == StateRows(StateKeys(enrolment, biometric, demographic), enrolment, biometric, demographic)
  {
  }

  /** Every record's state is among the states of the state view. */
  lemma StateKeysCover(enrolment: seq<EnrolmentRecord>, biometric: seq<UpdateRecord>, demographic: seq<UpdateRecord>)
    ensures forall i | 0 <= i < |enrolment| :: EnrolmentState(enrolment[i]) in StateKeys(enrolment, biometric, demographic)
    ensures forall i | 0 <= i < |biometric| :: UpdateState(biometric[i]) in StateKeys(enrolment, biometric, demographic)
    ensures forall i | 0 <= i < |demographic| :: UpdateState(demographic[i]) in StateKeys(enrolment, biometric, demographic)
  {
    var es, bs, ds := EnrolmentStates(enrolment), UpdateStates(biometric), UpdateStates(demographic);
    DistinctMembers(es + bs + ds);
    forall i | 0 <= i < |enrolment| ensures EnrolmentState(enrolment[i]) in es { assert es[i] == EnrolmentState(enrolment[i]); }
    forall i | 0 <= i < |biometric| ensures UpdateState(biometric[i]) in bs { assert bs[i] == UpdateState(biometric[i]); }
    forall i | 0 <= i < |demographic| ensures UpdateState(demographic[i]) in ds { assert ds[i] == UpdateState(demographic[i]); }
  }

  /** Column totals over the rows of the given states are the group sums of those states, added up. */
  lemma {:induction false} StateRowsTotals(keys: seq<State>, enrolment: seq<EnrolmentRecord>, biometric: seq<UpdateRecord>, demographic: seq<UpdateRecord>)
    ensures Sum(StateRows(keys, enrolment, biometric, demographic), RowEnrolment)
         == KeyedSum(keys, AnyState, true, enrolment, EnrolmentState, RecordEnrolment)
    ensures Sum(StateRows(keys, enrolment, biometric, demographic), RowBio)
         == KeyedSum(keys, AnyState, true, biometric, UpdateState, RecordUpdates)
    ensures Sum(StateRows(keys, enrolment, biometric, demographic), RowDemo)
         == KeyedSum(keys, AnyState, true, demographic, UpdateState, RecordUpdates)
    ensures Sum(StateRows(keys, enrolment, biometric, demographic), RowUpdates)
         == Sum(StateRows(keys, enrolment, biometric, demographic), RowBio)
            + Sum(StateRows(keys, enrolment, biometric, demographic), RowDemo)
  {
    if keys != [] {
      StateRowsTotals(keys[1..], enrolment, biometric, demographic);
      var rows := StateRows(keys, enrolment, biometric, demographic);
      assert rows[1..] == StateRows(keys[1..], enrolment, biometric, demographic);
    }
  }

  /**
   * Conservation: over the whole state view, total enrolment, biometric and
   * demographic updates equal the totals over the records, so no record is
   * lost or counted twice by the outer merge; total updates are their sum.
   */
  lemma StateViewConservesTotals(enrolment: seq<EnrolmentRecord>, biometric: seq<UpdateRecord>, demographic: seq<UpdateRecord>)
    ensures Sum(AggregateByState(enrolment, biometric, demographic), RowEnrolment) == Sum(enrolment, RecordEnrolment)
    ensures Sum(AggregateByState(enrolment, biometric, demographic), RowBio) == Sum(biometric, RecordUpdates)
    ensures Sum(AggregateByState(enrolment, biometric, demographic), RowDemo) == Sum(demographic, RecordUpdates)
    ensures Sum(AggregateByState(enrolment, biometric, demographic), RowUpdates)
         == Sum(biometric, RecordUpdates) + Sum(demographic, RecordUpdates)
  {
    var keys := StateKeys(enrolment, biometric, demographic);
    StateViewRows(enrolment, biometric, demographic);
    StateKeysCover(enrolment, biometric, demographic);
    StateRowsTotals(keys, enrolment, biometric, demographic);
    KeyedSumRefines(keys, AnyState, true, enrolment, EnrolmentState, AnyEnrolment, RecordEnrolment);
    KeyedSumRefines(keys, AnyState, true, biometric, UpdateState, AnyUpdate, RecordUpdates);
    KeyedSumRefines(keys, AnyState, true, demographic, UpdateState, AnyUpdate, RecordUpdates);
  }

  // ---------------------------------------------------------------------
  // The (state, district) and (state, month) views

  /** One row of a sub-state view keyed by (state, sub). */
  datatype SubRow<K> = SubRow(state: State, sub: K, totalBio: nat, totalDemo: nat, totalUpdates: nat)

  function SubRowState<K>(row: SubRow<K>): State { row.state }
  function SubRowUpdates<K>(row: SubRow<K>): nat { row.totalUpdates }
  /** Each row counts once: summing it counts a state's rows. */
  function SubRowCount<K>(row: SubRow<K>): nat { 1 }
  function SubKeyOf<K>(row: SubRow<K>): (State, K) { (row.state, row.sub) }

  function DistrictKey(r: UpdateRecord): (State, District) { (r.state, r.district) }
  function MonthKey(r: UpdateRecord): (State, Month) { (r.state, r.month) }
  function KeyState<K>(k: (State, K)): State { k.0 }

  /** A key function that places each record under its own state. */
  ghost predicate KeepsState<K>(key: UpdateRecord -> (State, K))
  {
    forall r: UpdateRecord :: key(r).0 == r.state
  }

  /**
   * The row of key k in a sub-state view: the update totals of the records
   * with that key in each dataset, zero for a dataset without the key.
   */
  function SubRowOf<K(==)>(k: (State, K), biometric: seq<UpdateRecord>, demographic: seq<UpdateRecord>, key: UpdateRecord -> (State, K)): (row: SubRow<K>)
    ensures SubKeyOf(row) == k
    ensures row.totalUpdates == row.totalBio + row.totalDemo
    ensures row.totalBio <= Sum(biometric, RecordUpdates) && row.totalDemo <= Sum(demographic, RecordUpdates)
    ensures k !in KeysOf(biometric, key) ==> row.totalBio == 0
    ensures k !in KeysOf(demographic, key) ==> row.totalDemo == 0
  {
    var totalBio := GroupSum(biometric, key, k, RecordUpdates);
    var totalDemo := GroupSum(demographic, key, k, RecordUpdates);
    SubRow(k.0, k.1, totalBio, totalDemo, totalBio + totalDemo)
  }

  function SubRows<K(==)>(keys: seq<(State, K)>, biometric: seq<UpdateRecord>, demographic: seq<UpdateRecord>, key: UpdateRecord -> (State, K)): (rows: seq<SubRow<K>>)
    ensures |rows| == |keys|
    ensures forall i | 0 <= i < |keys| :: rows[i] == SubRowOf(keys[i], biometric, demographic, key)
  {
    if keys == [] then []
    else [SubRowOf(keys[0], biometric, demographic, key)] + SubRows(keys[1..], biometric, demographic, key)
  }

  function SubKeys<K(==)>(biometric: seq<UpdateRecord>, demographic: seq<UpdateRecord>, key: UpdateRecord -> (State, K)): seq<(State, K)>
  {
    Distinct(KeysOf(biometric, key) + KeysOf(demographic, key))
  }

  /**
   * Update totals grouped by (state, sub) over both update datasets, outer
   * merged and zero-filled: the shared shape of the district and month views.
   */
  function AggregateBySub<K(==)>(biometric: seq<UpdateRecord>, demographic: seq<UpdateRecord>, key: UpdateRecord -> (State, K)): (rows: seq<SubRow<K>>)
    ensures NoDups(KeysOf(rows, SubKeyOf))
    ensures forall i | 0 <= i < |rows| :: SubKeyOf(rows[i]) in KeysOf(biometric, key) || SubKeyOf(rows[i]) in KeysOf(demographic, key)
    ensures forall i | 0 <= i < |biometric| :: key(biometric[i]) in KeysOf(rows, SubKeyOf)
    ensures forall i | 0 <= i < |demographic| :: key(demographic[i]) in KeysOf(rows, SubKeyOf)
    ensures forall i | 0 <= i < |rows| :: rows[i] == SubRowOf(SubKeyOf(rows[i]), biometric, demographic, key)
  {
    var keys := SubKeys(biometric, demographic, key);
    var rows := SubRows(keys, biometric, demographic, key);
    assert KeysOf(rows, SubKeyOf) == keys;
    SubKeysCover(biometric, demographic, key);
    rows
  }

  /** The rows of a sub-state view, summed per state, follow the keyed sums of their keys. */
  lemma {:induction false} SubRowsUpdatesOfState<K>(keys: seq<(State, K)>, biometric: seq<UpdateRecord>, demographic: seq<UpdateRecord>, key: UpdateRecord -> (State, K), s: State)
    ensures GroupSum(SubRows(keys, biometric, demographic, key), SubRowState, s, SubRowUpdates)
         == KeyedSum(keys, KeyState, s, biometric, key, RecordUpdates)
            + KeyedSum(keys, KeyState, s, demographic, key, RecordUpdates)
  {
    if keys != [] {
      SubRowsUpdatesOfState(keys[1..], biometric, demographic, key, s);
      var rows := SubRows(keys, biometric, demographic, key);
      assert rows[1..] == SubRows(keys[1..], biometric, demographic, key);
    }
  }

  /** Every record's key is among the keys of the sub-state view. */
  lemma SubKeysCover<K>(biometric: seq<UpdateRecord>, demographic: seq<UpdateRecord>, key: UpdateRecord -> (State, K))
    ensures forall i | 0 <= i < |biometric| :: key(biometric[i]) in SubKeys(biometric, demographic, key)
    ensures forall i | 0 <= i < |demographic| :: key(demographic[i]) in SubKeys(biometric, demographic, key)
  {
    var bioKeys, demoKeys := KeysOf(biometric, key), KeysOf(demographic, key);
    forall i | 0 <= i < |biometric| ensures key(biometric[i]) in SubKeys(biometric, demographic, key) {
      assert (bioKeys + demoKeys)[i] == key(biometric[i]);
    }
    forall i | 0 <= i < |demographic| ensures key(demographic[i]) in SubKeys(biometric, demographic, key) {
      assert (bioKeys + demoKeys)[|bioKeys| + i] == key(demographic[i]);
    }
  }

  /**
   * The sum invariant of a sub-state view: for every state, the update
   * totals of its (state, sub) rows add up to the state's total updates.
   */
  lemma SubViewSumsToState<K>(enrolment: seq<EnrolmentRecord>, biometric: seq<UpdateRecord>, demographic: seq<UpdateRecord>, key: UpdateRecord -> (State, K), s: State)
    requires KeepsState(key)
    ensures GroupSum(AggregateBySub(biometric, demographic, key), SubRowState, s, SubRowUpdates)
         == StateRowOf(s, enrolment, biometric, demographic).totalUpdates
  {
    var keys := SubKeys(biometric, demographic, key);
    SubKeysCover(biometric, demographic, key);
    SubRowsUpdatesOfState(keys, biometric, demographic, key, s);
    KeyedSumRefines(keys, KeyState, s, biometric, key, UpdateState, RecordUpdates);
    KeyedSumRefines(keys, KeyState, s, demographic, key, UpdateState, RecordUpdates);
  }

  /** The district view (used for geographic concentration). */
  function AggregateByDistrict(biometric: seq<UpdateRecord>, demographic: seq<UpdateRecord>): (rows: seq<SubRow<District>>)
    ensures NoDups(KeysOf(rows, SubKeyOf))
    ensures forall i | 0 <= i < |rows| :: SubKeyOf(rows[i]) in KeysOf(biometric, DistrictKey) || SubKeyOf(rows[i]) in KeysOf(demographic, DistrictKey)
    ensures forall i | 0 <= i < |biometric| :: DistrictKey(biometric[i]) in KeysOf(rows, SubKeyOf)
    ensures forall i | 0 <= i < |demographic| :: DistrictKey(demographic[i]) in KeysOf(rows, SubKeyOf)
    ensures forall i | 0 <= i < |rows| :: rows[i] == SubRowOf(SubKeyOf(rows[i]), biometric, demographic, DistrictKey)
    ensures forall i | 0 <= i < |rows| :: rows[i].totalUpdates == rows[i].totalBio + rows[i].totalDemo
  {
    AggregateBySub(biometric, demographic, DistrictKey)
  }

  /** The month view (used for temporal consistency). */
  function AggregateByMonth(biometric: seq<UpdateRecord>, demographic: seq<UpdateRecord>): (rows: seq<SubRow<Month>>)
    ensures NoDups(KeysOf(rows, SubKeyOf))
    ensures forall i | 0 <= i < |rows| :: SubKeyOf(rows[i]) in KeysOf(biometric, MonthKey) || SubKeyOf(rows[i]) in KeysOf(demographic, MonthKey)
    ensures forall i | 0 <= i < |biometric| :: MonthKey(biometric[i]) in KeysOf(rows, SubKeyOf)
    ensures forall i | 0 <= i < |demographic| :: MonthKey(demographic[i]) in KeysOf(rows, SubKeyOf)
    ensures forall i | 0 <= i < |rows| :: rows[i] == SubRowOf(SubKeyOf(rows[i]), biometric, demographic, MonthKey)
    ensures forall i | 0 <= i < |rows| :: rows[i].totalUpdates == rows[i].totalBio + rows[i].totalDemo
  {
    AggregateBySub(biometric, demographic, MonthKey)
  }

  /** For every state, its district rows' update totals add up to its state-view total. */
  lemma DistrictViewSumsToState(enrolment: seq<EnrolmentRecord>, biometric: seq<UpdateRecord>, demographic: seq<UpdateRecord>, s: State)
    ensures GroupSum(AggregateByDistrict(biometric, demographic), SubRowState, s, SubRowUpdates)
         == StateRowOf(s, enrolment, biometric, demographic).totalUpdates
  {
    SubViewSumsToState(enrolment, biometric, demographic, DistrictKey, s);
  }

  /** For every state, its month rows' update totals add up to its state-view total. */
  lemma MonthViewSumsToState(enrolment: seq<EnrolmentRecord>, biometric: seq<UpdateRecord>, demographic: seq<UpdateRecord>, s: State)
    ensures GroupSum(AggregateByMonth(biometric, demographic), SubRowState, s, SubRowUpdates)
         == StateRowOf(s, enrolment, biometric, demographic).totalUpdates
  {
    SubViewSumsToState(enrolment, biometric, demographic, MonthKey, s);
  }
}
