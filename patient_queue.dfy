/** The doctor's queue as the doctor panel derives it (`src/components/DoctorPanel.js`,
    the `allPatients` selector and `filteredAndSortedPatients`): the doctor's pending
    records, those with a name, those matching the search, stably sorted by priority. */
module PatientQueue {
  import opened Wrappers
  import opened Seqs
  import opened Js
  import opened PatientSlice

  /** `priorityOrder[priority] || 2`: High 3, Medium 2, Low 1, anything else 2. */
  function Rank(priority: string): (r: int)
    ensures 1 <= r <= 3
    ensures r == 3 <==> priority == "High"
    ensures r == 1 <==> priority == "Low"
  {
    if priority == "High" then 3
    else if priority == "Medium" then 2
    else if priority == "Low" then 1
    else 2
  }

  function RankOf(p: Patient): int {
    Rank(p.priority)
  }

  predicate HasRank(k: int, p: Patient) {
    RankOf(p) == k
  }

  function RankFilter(k: int): Patient -> bool {
    p => HasRank(k, p)
  }

  /** The records of one rank, in their order. */
  function OfRank(s: seq<Patient>, k: int): seq<Patient> {
    Filter(s, RankFilter(k))
  }

  /** Ranks never increase along the sequence. */
  predicate SortedByRank(s: seq<Patient>) {
    forall i, j :: 0 <= i < j < |s| ==> RankOf(s[i]) >= RankOf(s[j])
  }

  /** Insert `p` before the first record of rank at most its own. */
  function Insert(p: Patient, sorted: seq<Patient>): (r: seq<Patient>)
    ensures multiset(r) == multiset(sorted) + multiset{p}
  {
    if sorted == [] || RankOf(p) >= RankOf(sorted[0]) then [p] + sorted
    else
      assert sorted == [sorted[0]] + sorted[1..];
      [sorted[0]] + Insert(p, sorted[1..])
  }

  /** The comparator `(a, b) => rank(b) - rank(a)` under a stable sort (`Array.prototype.sort`
      is stable since ECMAScript 2019), as an insertion sort. */
  function SortByPriority(s: seq<Patient>): (r: seq<Patient>)
    ensures multiset(r) == multiset(s)
    ensures SortedByRank(r)
  {
    if s == [] then []
    else
      var sorted := SortByPriority(s[1..]);
      InsertSorted(s[0], sorted);
      assert s == [s[0]] + s[1..];
      Insert(s[0], sorted)
  }

  /** The `allPatients` selector: nothing without a truthy doctor id, otherwise the
      doctor's pending records (`doctorId === parseInt(doctorId) && status === 'pending'`;
      `parseInt` of an integer is that integer). */
  function AllPatients(patients: seq<Patient>, doctorId: Option<int>): (r: seq<Patient>)
    ensures !Truthy(doctorId) ==> r == []
    ensures Truthy(doctorId) ==> forall p :: p in r <==> p in patients && IsPendingFor(doctorId.value, p)
    ensures multiset(r) <= multiset(patients)
  {
    if !Truthy(doctorId) then [] else SelectPatientsByDoctor(patients, doctorId.value)
  }

  predicate HasName(p: Patient) {
    p.name != []
  }

  /** The search is applied only when the term is not blank once trimmed. */
  predicate SearchActive(searchTerm: string) {
    !IsBlank(searchTerm)
  }

  /** The lowercased name contains the lowercased term, which is NOT trimmed. */
  predicate MatchesSearch(searchTerm: string, p: Patient) {
    Includes(ToLower(p.name), ToLower(searchTerm))
  }

  function SearchFilter(searchTerm: string): Patient -> bool {
    p => MatchesSearch(searchTerm, p)
  }

  /** The named records of the selector's output that match an active search, in order. */
  function Searched(allPatients: seq<Patient>, searchTerm: string): (r: seq<Patient>)
    ensures multiset(r) <= multiset(allPatients)
    ensures forall p :: p in r ==>
              p in allPatients && HasName(p) && (SearchActive(searchTerm) ==> MatchesSearch(searchTerm, p))
  {
    var named := Filter(allPatients, HasName);
    FilterSubMultiset(allPatients, HasName);
    FilterSubMultiset(named, SearchFilter(searchTerm));
    if SearchActive(searchTerm) then Filter(named, SearchFilter(searchTerm)) else named
  }

  /** `filteredAndSortedPatients` over the selector's output and the debounced term. */
  function FilteredAndSortedPatients(allPatients: seq<Patient>, doctorId: Option<int>,
                                     searchTerm: string): (r: seq<Patient>)
    ensures !Truthy(doctorId) ==> r == []
    ensures multiset(r) <= multiset(allPatients)
    ensures SortedByRank(r)
    ensures forall p :: p in r ==>
              p in allPatients && HasName(p) && (SearchActive(searchTerm) ==> MatchesSearch(searchTerm, p))
  {
    if !Truthy(doctorId) then []
    else
      var searched := Searched(allPatients, searchTerm);
      SameMembers(SortByPriority(searched), searched);
      SortByPriority(searched)
  }

  /** The queue the panel shows for `doctorId` and the debounced search term. */
  function Queue(patients: seq<Patient>, doctorId: Option<int>, searchTerm: string): (r: seq<Patient>)
    ensures !Truthy(doctorId) ==> r == []
    ensures multiset(r) <= multiset(patients)
    ensures SortedByRank(r)
    ensures forall p :: p in r ==> p in patients && Truthy(doctorId) && InQueue(doctorId.value, searchTerm, p)
  {
    FilteredAndSortedPatients(AllPatients(patients, doctorId), doctorId, searchTerm)
  }

  /** Independent description of who is queued: pending for the doctor, named, and
      matching an active search. */
  predicate InQueue(doctorId: int, searchTerm: string, p: Patient) {
    IsPendingFor(doctorId, p) && HasName(p) && (SearchActive(searchTerm) ==> MatchesSearch(searchTerm, p))
  }

  function QueueFilter(doctorId: int, searchTerm: string): Patient -> bool {
    p => InQueue(doctorId, searchTerm, p)
  }

  /** The queued records in store order. */
  function Candidates(patients: seq<Patient>, doctorId: int, searchTerm: string): seq<Patient> {
    Filter(patients, QueueFilter(doctorId, searchTerm))
  }

  // ---------------------------------------------------------------------------
  // The sort

  /** Every rank in `s` is at most `k`. */
  predicate RanksAtMost(s: seq<Patient>, k: int) {
    forall i :: 0 <= i < |s| ==> RankOf(s[i]) <= k
  }

  lemma {:induction false} InsertRanksAtMost(p: Patient, s: seq<Patient>, k: int)
    requires RanksAtMost(s, k) && RankOf(p) <= k
    ensures RanksAtMost(Insert(p, s), k)
  {
    if s != [] && RankOf(p) < RankOf(s[0]) {
      InsertRanksAtMost(p, s[1..], k);
      assert Insert(p, s) == [s[0]] + Insert(p, s[1..]);
    }
  }

  /** A sorted sequence headed by `x` whose tail is sorted and ranked at most `x`. */
  lemma ConsSorted(x: Patient, t: seq<Patient>)
    requires SortedByRank(t) && RanksAtMost(t, RankOf(x))
    ensures SortedByRank([x] + t)
  {
    var s := [x] + t;
    forall i, j | 0 <= i < j < |s| ensures RankOf(s[i]) >= RankOf(s[j]) {
      assert s[j] == t[j - 1];
      if i > 0 {
        assert s[i] == t[i - 1];
      }
    }
  }

  lemma {:induction false} InsertSorted(p: Patient, s: seq<Patient>)
    requires SortedByRank(s)
    ensures SortedByRank(Insert(p, s))
  {
    if s == [] || RankOf(p) >= RankOf(s[0]) {
      forall i | 0 <= i < |s| ensures RankOf(s[i]) <= RankOf(p) {
        if i > 0 {
          assert RankOf(s[0]) >= RankOf(s[i]);
        }
      }
      ConsSorted(p, s);
    } else {
      var t := s[1..];
      assert SortedByRank(t) by {
        forall i, j | 0 <= i < j < |t| ensures RankOf(t[i]) >= RankOf(t[j]) {
          assert t[i] == s[i + 1] && t[j] == s[j + 1];
        }
      }
      assert RanksAtMost(t, RankOf(s[0])) by {
        forall i | 0 <= i < |t| ensures RankOf(t[i]) <= RankOf(s[0]) {
          assert t[i] == s[i + 1];
        }
      }
      InsertSorted(p, t);
      InsertRanksAtMost(p, t, RankOf(s[0]));
      ConsSorted(s[0], Insert(p, t));
    }
  }

  lemma OfRankSingle(p: Patient, k: int)
    ensures OfRank([p], k) == if RankOf(p) == k then [p] else []
  {
    assert [p][1..] == [];
  }

  /** Inserting `p` puts it before every record of its own rank. */
  lemma {:induction false} InsertStable(p: Patient, s: seq<Patient>, k: int)
    ensures OfRank(Insert(p, s), k) == OfRank([p], k) + OfRank(s, k)
  {
    if s == [] || RankOf(p) >= RankOf(s[0]) {
      FilterConcat([p], s, RankFilter(k));
    } else {
      InsertStable(p, s[1..], k);
      FilterConcat([s[0]], Insert(p, s[1..]), RankFilter(k));
      FilterConcat([s[0]], s[1..], RankFilter(k));
      assert [s[0]] + s[1..] == s;
      OfRankSingle(p, k);
      OfRankSingle(s[0], k);
    }
  }

  /** Records of equal rank keep their relative order through the sort. */
  lemma {:induction false} SortStable(s: seq<Patient>, k: int)
    ensures OfRank(SortByPriority(s), k) == OfRank(s, k)
  {
    if s != [] {
      SortStable(s[1..], k);
      InsertStable(s[0], SortByPriority(s[1..]), k);
      FilterConcat([s[0]], s[1..], RankFilter(k));
      assert [s[0]] + s[1..] == s;
    }
  }

  // ---------------------------------------------------------------------------
  // The queue

  /** With a truthy doctor, the queue is the stable priority sort of the queued records in
      store order. */
  lemma QueueIsSortedCandidates(patients: seq<Patient>, doctorId: int, searchTerm: string)
    requires doctorId != 0
    ensures Queue(patients, Some(doctorId), searchTerm)
            == SortByPriority(Candidates(patients, doctorId, searchTerm))
  {
    var pending := SelectPatientsByDoctor(patients, doctorId);
    var namedFilter := (p: Patient) => IsPendingFor(doctorId, p) && HasName(p);
    FilterCompose(patients, p => IsPendingFor(doctorId, p), HasName, namedFilter);
    var named := Filter(pending, HasName);
    assert named == Filter(patients, namedFilter);
    if SearchActive(searchTerm) {
      FilterCompose(patients, namedFilter, SearchFilter(searchTerm), QueueFilter(doctorId, searchTerm));
    } else {
      FilterAgree(patients, namedFilter, QueueFilter(doctorId, searchTerm));
    }
  }

  /** Who is queued: exactly the store's records that are pending for the doctor, have a
      name and match an active search; each as often as in the store. */
  lemma QueueMembers(patients: seq<Patient>, doctorId: int, searchTerm: string, p: Patient)
    requires doctorId != 0
    ensures p in Queue(patients, Some(doctorId), searchTerm) <==> p in patients && InQueue(doctorId, searchTerm, p)
    ensures multiset(Queue(patients, Some(doctorId), searchTerm))[p]
            == if InQueue(doctorId, searchTerm, p) then multiset(patients)[p] else 0
  {
    QueueIsSortedCandidates(patients, doctorId, searchTerm);
    var c := Candidates(patients, doctorId, searchTerm);
    FilterCount(patients, QueueFilter(doctorId, searchTerm), p);
    FilterMembership(patients, QueueFilter(doctorId, searchTerm), p);
    assert p in SortByPriority(c) <==> p in multiset(SortByPriority(c));
    assert p in c <==> p in multiset(c);
  }

  /** Records of one rank appear in the queue in store order. */
  lemma QueueOrder(patients: seq<Patient>, doctorId: int, searchTerm: string, k: int)
    requires doctorId != 0
    ensures OfRank(Queue(patients, Some(doctorId), searchTerm), k)
            == OfRank(Candidates(patients, doctorId, searchTerm), k)
  {
    QueueIsSortedCandidates(patients, doctorId, searchTerm);
    SortStable(Candidates(patients, doctorId, searchTerm), k);
  }

  /** A blank term (empty or only white space) filters nothing by name. */
  lemma BlankSearchKeepsEveryone(patients: seq<Patient>, doctorId: Option<int>, searchTerm: string)
    requires IsBlank(searchTerm)
    ensures Queue(patients, doctorId, searchTerm) == Queue(patients, doctorId, "")
  {
  }

  /** The term is lowercased but not trimmed: "ali" finds "Alice", "ali " (with a trailing
      space) does not, although both terms switch the search on. */
  lemma UntrimmedSearchTerm(p: Patient)
    requires p.name == "Alice"
    ensures SearchActive("ali") && MatchesSearch("ali", p)
    ensures SearchActive("ali ") && !MatchesSearch("ali ", p)
  {
    var lower := ToLower(p.name);
    assert lower == "alice";
    assert ToLower("ali") == "ali" && ToLower("ali ") == "ali ";
    assert OccursAt(lower, "ali", 0) by { assert lower[0..3] == "ali"; }
    assert "ali"[0] == 'a' && "ali "[0] == 'a' && !IsWhiteSpace('a');
    forall i | 0 <= i <= |lower| - 4 ensures !OccursAt(lower, "ali ", i) {
      assert lower[i + 3] != ' ';
    }
  }

  /** After `removePatient`, no record with that id is in any doctor's queue. */
  lemma RemovedPatientLeavesQueue(patients: seq<Patient>, patientId: int, doctorId: Option<int>,
                                  searchTerm: string, p: Patient)
    requires p in Queue(WithoutPatient(patients, patientId), doctorId, searchTerm)
    ensures p.id != patientId
  {
    QueueMembers(WithoutPatient(patients, patientId), doctorId.value, searchTerm, p);
    RemoveSpec(patients, patientId, p);
  }
}
