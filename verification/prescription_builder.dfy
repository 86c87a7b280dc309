/**
 * The prescription panel of a consultation: the list query it issues, the
 * order in which it shows the fetched prescriptions, which actions each card
 * offers, the default record of the create form, and its modal state with
 * the refetches that closing a modal triggers.
 */
module PrescriptionBuilder {
  import opened Wrappers
  import opened Strings

  datatype DosageType = Regular | Prn | Titrated

  /** The wire name of a dosage type. */
  function DosageTypeCode(d: DosageType): string
  {
    match d
    case Regular => "REGULAR"
    case Prn => "PRN"
    case Titrated => "TITRATED"
  }

  /** The fields of a fetched prescription this panel looks at. */
  datatype Prescription = Prescription(id: string, discontinued: bool, dosageType: DosageType)

  /** The per-card actions a panel may enable. */
  datatype Action = Discontinue | Administer

  /** The `actions` prop when none is given. */
  const DefaultActions: seq<Action> := [Administer, Discontinue]

  // ---------------------------------------------------------------------
  // The list query

  /** Query parameters of the list request. */
  datatype ListQuery = ListQuery(dosageType: string, prescriptionType: Option<string>, discontinued: Option<bool>, limit: nat)

  /** The query for the panel's props. */
  function QueryFor(isPrn: bool, prescriptionType: Option<string>, discontinued: Option<bool>): (q: ListQuery)
    ensures q.limit == 100
    ensures q.dosageType == "PRN" <==> isPrn
    ensures q.prescriptionType == prescriptionType && q.discontinued == discontinued
  {
    ListQuery(if isPrn then "PRN" else "REGULAR,TITRATED", prescriptionType, discontinued, 100)
  }

  /** The dosage types a query asks for: those named in its comma-separated list. */
  function RequestedDosageTypes(q: ListQuery): set<DosageType>
  {
    set d | d in {Regular, Prn, Titrated} && DosageTypeCode(d) in Split(q.dosageType, ',')
  }

  /** The comma-separated list a regular panel sends names two dosage types. */
  lemma RegularCodesSplit()
    ensures Split("REGULAR,TITRATED", ',') == ["REGULAR", "TITRATED"]
  {
    SplitWithoutSeparator("TITRATED", ',');
    SplitAtSeparator("REGULAR", "TITRATED", ',');
    assert "REGULAR" + [','] + "TITRATED" == "REGULAR,TITRATED";
  }

  /** The dosage types named by a list of codes. */
  lemma RequestedFromCodes(q: ListQuery, codes: seq<string>)
    requires Split(q.dosageType, ',') == codes
    ensures codes == ["PRN"] ==> RequestedDosageTypes(q) == {Prn}
    ensures codes == ["REGULAR", "TITRATED"] ==> RequestedDosageTypes(q) == {Regular, Titrated}
  {
    assert DosageTypeCode(Regular) == "REGULAR" && DosageTypeCode(Prn) == "PRN" && DosageTypeCode(Titrated) == "TITRATED";
    assert "PRN" != "REGULAR" && "PRN" != "TITRATED" && "REGULAR" != "TITRATED";
  }

  /** A PRN panel asks for PRN prescriptions only, any other panel for regular and titrated ones. */
  lemma QueryDosageTypes(isPrn: bool, prescriptionType: Option<string>, discontinued: Option<bool>)
    ensures RequestedDosageTypes(QueryFor(isPrn, prescriptionType, discontinued))
      == if isPrn then {Prn} else {Regular, Titrated}
  {
    var q := QueryFor(isPrn, prescriptionType, discontinued);
    if isPrn {
      SplitWithoutSeparator("PRN", ',');
      RequestedFromCodes(q, ["PRN"]);
    } else {
      RegularCodesSplit();
      RequestedFromCodes(q, ["REGULAR", "TITRATED"]);
    }
  }

  // ---------------------------------------------------------------------
  // The create form's initial record

  /** A partial prescription used as a template. */
  datatype Template = Template(dosageType: DosageType, route: string)

  const DefaultPrescription: Template := Template(Regular, "ORAL")
  const DefaultPrnPrescription: Template := Template(Prn, "ORAL")

  /** The record the create form starts from. */
  datatype Draft = Draft(dosageType: DosageType, route: string, prescriptionType: Option<string>)

  /** The template chosen by `is_prn`, overlaid with the panel's `prescription_type`. */
  function InitialDraft(isPrn: bool, prescriptionType: Option<string>): (d: Draft)
    ensures d.route == "ORAL" && d.prescriptionType == prescriptionType
    ensures d.dosageType == Prn <==> isPrn
    ensures !isPrn ==> d.dosageType == Regular
  {
    var t := if isPrn then DefaultPrnPrescription else DefaultPrescription;
    Draft(t.dosageType, t.route, prescriptionType)
  }

  /**
   * The create form's record falls inside the panel's own list query: its
   * dosage type is one the query asks for and its prescription type is the
   * one the query filters on.
   */
  lemma DraftMatchesQuery(isPrn: bool, prescriptionType: Option<string>, discontinued: Option<bool>)
    ensures var q := QueryFor(isPrn, prescriptionType, discontinued);
      var d := InitialDraft(isPrn, prescriptionType);
      d.dosageType in RequestedDosageTypes(q) && d.prescriptionType == q.prescriptionType
  {
    QueryDosageTypes(isPrn, prescriptionType, discontinued);
  }

  // ---------------------------------------------------------------------
  // Ordering the fetched list

  /** The records of s whose `discontinued` flag is `d`, in their order in s. */
  function Filter(s: seq<Prescription>, d: bool): (r: seq<Prescription>)
    ensures |r| <= |s|
    ensures forall k :: 0 <= k < |r| ==> r[k].discontinued == d
  {
    if s == [] then []
    else Filter(s[..|s| - 1], d) + (if s[|s| - 1].discontinued == d then [s[|s| - 1]] else [])
  }

  /** Active records first, then discontinued ones, each group in fetch order. */
  function Partitioned(s: seq<Prescription>): seq<Prescription>
  {
    Filter(s, false) + Filter(s, true)
  }

  /** No discontinued record comes before an active one. */
  predicate ActiveFirst(r: seq<Prescription>)
  {
    forall i, j :: 0 <= i < j < |r| && r[i].discontinued ==> r[j].discontinued
  }

  lemma {:induction false} FilterAppend(a: seq<Prescription>, b: seq<Prescription>, d: bool)
    ensures Filter(a + b, d) == Filter(a, d) + Filter(b, d)
    decreases |b|
  {
    if b == [] {
      assert a + b == a;
    } else {
      var b' := b[..|b| - 1];
      assert (a + b)[..|a + b| - 1] == a + b';
      FilterAppend(a, b', d);
    }
  }

  /** Filtering by the flag every record already has keeps them all; by the other flag, none. */
  lemma {:induction false} FilterUniform(s: seq<Prescription>, d: bool)
    requires forall k :: 0 <= k < |s| ==> s[k].discontinued == d
    ensures Filter(s, d) == s && Filter(s, !d) == []
    decreases |s|
  {
    if s != [] {
      FilterUniform(s[..|s| - 1], d);
      assert s[..|s| - 1] + [s[|s| - 1]] == s;
    }
  }

  /** The two groups together hold exactly the input's records. */
  lemma {:induction false} PartitionedIsPermutation(s: seq<Prescription>)
    ensures multiset(Partitioned(s)) == multiset(s)
    decreases |s|
  {
    if s != [] {
      var s' := s[..|s| - 1];
      PartitionedIsPermutation(s');
      assert s' + [s[|s| - 1]] == s;
    }
  }

  /** The ordering puts every active record before every discontinued one. */
  lemma PartitionedIsActiveFirst(s: seq<Prescription>)
    ensures ActiveFirst(Partitioned(s))
  {
    var a, b := Filter(s, false), Filter(s, true);
    var r := a + b;
    forall i, j | 0 <= i < j < |r| && r[i].discontinued
      ensures r[j].discontinued
    {
      assert i >= |a|;
      assert r[j] == b[j - |a|];
    }
  }

  /** The ordering is stable: within each group, records keep their fetch order. */
  lemma PartitionedIsStable(s: seq<Prescription>, d: bool)
    ensures Filter(Partitioned(s), d) == Filter(s, d)
  {
    FilterAppend(Filter(s, false), Filter(s, true), d);
    FilterUniform(Filter(s, false), false);
    FilterUniform(Filter(s, true), true);
  }

  /** A list with active records first is its active group followed by its discontinued group. */
  lemma {:induction false} ActiveFirstSplits(r: seq<Prescription>)
    requires ActiveFirst(r)
    ensures r == Filter(r, false) + Filter(r, true)
    decreases |r|
  {
    if r != [] {
      var r' := r[..|r| - 1];
      var x := r[|r| - 1];
      assert r == r' + [x];
      ActiveFirstSplits(r');
      if !x.discontinued {
        FilterUniform(r', false);
      }
    }
  }

  /**
   * The ordering is the only stable one with active records first: any list
   * with active records first and the same two groups in the same order is it.
   */
  lemma PartitionedIsUnique(s: seq<Prescription>, r: seq<Prescription>)
    requires ActiveFirst(r)
    requires Filter(r, false) == Filter(s, false) && Filter(r, true) == Filter(s, true)
    ensures r == Partitioned(s)
  {
    ActiveFirstSplits(r);
  }

  /** A discontinued record fetched before an active one is shown after it. */
  lemma OrderingExample(p: Prescription, q: Prescription)
    requires p.discontinued && !q.discontinued
    ensures Partitioned([p, q]) == [q, p]
  {
    assert [p, q][..1] == [p];
    assert [p][..0] == [];
    assert Filter([p], false) == [] && Filter([p], true) == [p];
  }

  /** One pass over the fetched array, collecting its active and its discontinued records. */
  method Group(a: array<Prescription>) returns (active: seq<Prescription>, stopped: seq<Prescription>)
    ensures active == Filter(a[..], false) && stopped == Filter(a[..], true)
  {
    active, stopped := [], [];
    for i := 0 to a.Length
      invariant active == Filter(a[..i], false) && stopped == Filter(a[..i], true)
    {
      assert a[..i + 1][..i] == a[..i];
      if a[i].discontinued {
        stopped := stopped + [a[i]];
      } else {
        active := active + [a[i]];
      }
    }
    assert a[..a.Length] == a[..];
  }

  /** The display order has as many records as were fetched. */
  lemma PartitionedLength(s: seq<Prescription>)
    ensures |Partitioned(s)| == |s|
  {
    PartitionedIsPermutation(s);
    assert |multiset(Partitioned(s))| == |multiset(s)|;
  }

  /** Writes `values` over the whole array, element by element. */
  method Overwrite(a: array<Prescription>, values: seq<Prescription>)
    requires |values| == a.Length
    modifies a
    ensures a[..] == values
  {
    for k := 0 to a.Length
      invariant a[..k] == values[..k]
    {
      a[k] := values[k];
    }
  }

  /** `data.results.sort(compareBy("discontinued"))`, in place on the fetched array. */
  method SortByDiscontinued(a: array<Prescription>)
    modifies a
    ensures a[..] == Partitioned(old(a[..]))
  {
    var active, stopped := Group(a);
    PartitionedLength(a[..]);
    Overwrite(a, active + stopped);
  }

  // ---------------------------------------------------------------------
  // Cards

  /** What one `PrescriptionDetailCard` receives: its record, which handlers are set, `readonly`. */
  datatype Card = Card(prescription: Prescription, onDiscontinue: bool, onAdminister: bool, readonly: bool)

  /** The card for one record: a handler is passed exactly when its action is enabled. */
  function CardFor(p: Prescription, actions: seq<Action>, disabled: bool): Card
  {
    Card(p, Discontinue in actions, Administer in actions, disabled)
  }

  /** The cards of the panel, one per fetched record, in display order. */
  function Cards(results: seq<Prescription>, actions: seq<Action>, disabled: bool): (r: seq<Card>)
    ensures |r| == |results|
  {
    var shown := Partitioned(results);
    PartitionedLength(results);
    seq(|shown|, k requires 0 <= k < |shown| => CardFor(shown[k], actions, disabled))
  }

  /**
   * The cards show a permutation of the fetched records, active first; every
   * card gets the discontinue handler exactly when "discontinue" is enabled,
   * the administer handler exactly when "administer" is, and `readonly`
   * equal to `disabled`.
   */
  lemma CardsContract(results: seq<Prescription>, actions: seq<Action>, disabled: bool)
    ensures var cs := Cards(results, actions, disabled);
      var shown := seq(|cs|, k requires 0 <= k < |cs| => cs[k].prescription);
      multiset(shown) == multiset(results) && ActiveFirst(shown) &&
      forall k :: 0 <= k < |cs| ==>
        (cs[k].onDiscontinue <==> Discontinue in actions) &&
        (cs[k].onAdminister <==> Administer in actions) &&
        cs[k].readonly == disabled
  {
    var cs := Cards(results, actions, disabled);
    var shown := seq(|cs|, k requires 0 <= k < |cs| => cs[k].prescription);
    assert shown == Partitioned(results);
    PartitionedIsPermutation(results);
    PartitionedIsActiveFirst(results);
  }

  /** With the default actions every card offers both handlers. */
  lemma DefaultActionsOfferBoth(results: seq<Prescription>, disabled: bool)
    ensures forall c :: c in Cards(results, DefaultActions, disabled) ==> c.onDiscontinue && c.onAdminister
  {
  }

  // ---------------------------------------------------------------------
  // The panel's state

  /**
   * One mounted panel: its props, the three modal states and the number of
   * refetches it has requested.
   */
  class PrescriptionPanel {
    const prescriptionType: Option<string>
    const isPrn: bool
    const disabled: bool
    const discontinued: Option<bool>
    const actions: seq<Action>
    var showCreate: bool
    var showDiscontinueFor: Option<Prescription>
    var showAdministerFor: Option<Prescription>
    var refetchCount: nat

    constructor (prescriptionType: Option<string>, isPrn: bool, disabled: bool,
                 discontinued: Option<bool>, actions: seq<Action>)
      ensures this.prescriptionType == prescriptionType && this.isPrn == isPrn
      ensures this.disabled == disabled && this.discontinued == discontinued && this.actions == actions
      ensures !showCreate && showDiscontinueFor == None && showAdministerFor == None
      ensures refetchCount == 0
    {
      this.prescriptionType := prescriptionType;
      this.isPrn := isPrn;
      this.disabled := disabled;
      this.discontinued := discontinued;
      this.actions := actions;
      showCreate := false;
      showDiscontinueFor := None;
      showAdministerFor := None;
      refetchCount := 0;
    }

    /** The list request this panel issues. */
    function Query(): ListQuery
    {
      QueryFor(isPrn, prescriptionType, discontinued)
    }

    /** The record the create form starts from. */
    function CreateRecord(): Draft
    {
      InitialDraft(isPrn, prescriptionType)
    }

    /** A card's discontinue handler (passed only when enabled): target that record. */
    method DiscontinueClick(p: Prescription)
      requires Discontinue in actions
      modifies this`showDiscontinueFor
      ensures showDiscontinueFor == Some(p)
    {
      showDiscontinueFor := Some(p);
    }

    /** A card's administer handler (passed only when enabled): target that record. */
    method AdministerClick(p: Prescription)
      requires Administer in actions
      modifies this`showAdministerFor
      ensures showAdministerFor == Some(p)
    {
      showAdministerFor := Some(p);
    }

    /** The discontinue modal closes: clear its target, refetch on success only. */
    method DiscontinueClose(success: bool)
      modifies this`showDiscontinueFor, this`refetchCount
      ensures showDiscontinueFor == None
      ensures refetchCount == old(refetchCount) + (if success then 1 else 0)
    {
      showDiscontinueFor := None;
      if success {
        refetchCount := refetchCount + 1;
      }
    }

    /** The administer modal closes: clear its target, refetch on success only. */
    method AdministerClose(success: bool)
      modifies this`showAdministerFor, this`refetchCount
      ensures showAdministerFor == None
      ensures refetchCount == old(refetchCount) + (if success then 1 else 0)
    {
      showAdministerFor := None;
      if success {
        refetchCount := refetchCount + 1;
      }
    }

    /** The create button, which is disabled exactly when the panel is: opens the create modal. */
    method CreateClick()
      modifies this`showCreate
      ensures showCreate == (old(showCreate) || !disabled)
    {
      if !disabled {
        showCreate := true;
      }
    }

    /** The create form's `onDone`: close the modal and always refetch. */
    method CreateDone()
      modifies this`showCreate, this`refetchCount
      ensures !showCreate && refetchCount == old(refetchCount) + 1
    {
      showCreate := false;
      refetchCount := refetchCount + 1;
    }

    /** The create dialog's `onClose`: close the modal without refetching. */
    method CreateClose()
      modifies this`showCreate
      ensures !showCreate
    {
      showCreate := false;
    }
  }

  /**
   * The discontinue and administer targets are independent: both can be set
   * at once, and closing one leaves the other in place.
   */
  method IndependentModals(p: Prescription, q: Prescription)
  {
    var panel := new PrescriptionPanel(None, false, false, None, DefaultActions);
    panel.DiscontinueClick(p);
    panel.AdministerClick(q);
    assert panel.showDiscontinueFor == Some(p) && panel.showAdministerFor == Some(q);
    panel.DiscontinueClose(true);
    assert panel.refetchCount == 1 && panel.showAdministerFor == Some(q);
    panel.AdministerClose(false);
    assert panel.refetchCount == 1 && panel.showAdministerFor == None;
  }
}
