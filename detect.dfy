// The group-registration pattern detector of src/lib/group-registration/detect.ts: a scan
// for a name field, a role field and a group field standing next to each other.

module GroupDetect {
  import opened FormTypes
  import opened FieldPatterns

  /** One occurrence of the triple, with the index of its name field. */
  datatype Match = Match(startIndex: int, nameField: Question, roleField: Question, groupField: Question)

  /** Some option of a role field names the leader role. */
  predicate HasLeaderOption(options: seq<string>) {
    exists k :: 0 <= k < |options| && DanceLeader(options[k])
  }

  /** Some option of a role field names the follow role. */
  predicate HasFollowOption(options: seq<string>) {
    exists k :: 0 <= k < |options| && DanceFollow(options[k])
  }

  /** A required free-text field asking for a name. */
  predicate IsNameField(f: Question) {
    (f.qtype == Text || f.qtype == ParagraphText) && DanceName(f.title) && f.required
  }

  /** A required choice field offering both a leader and a follow option. */
  predicate IsRoleField(f: Question) {
    (f.qtype == Checkboxes || f.qtype == MultipleChoice) && f.required &&
    HasLeaderOption(f.options) && HasFollowOption(f.options)
  }

  /** A paragraph field asking for the group; whether it is required is not looked at. */
  predicate IsGroupField(f: Question) {
    f.qtype == ParagraphText && DanceGroup(f.title)
  }

  /** The triple starts at index `i`. */
  predicate TripleAt(fields: seq<Question>, i: int)
    requires 0 <= i && i + 3 <= |fields|
  {
    IsNameField(fields[i]) && IsRoleField(fields[i + 1]) && IsGroupField(fields[i + 2])
  }

  /** The matches the scan reports from index `i` on: a match moves the scan past the
      whole triple, anything else moves it one field on. */
  function Detect(fields: seq<Question>, i: nat): seq<Match>
    decreases |fields| - i
  {
    if i + 3 > |fields| then []
    else if TripleAt(fields, i) then
      [Match(i, fields[i], fields[i + 1], fields[i + 2])] + Detect(fields, i + 3)
    else Detect(fields, i + 1)
  }

  /** `detectGroupRegistration`: the loop of the source, whose skip of two extra fields
      after a match is the `i + 3` step. */
  method DetectGroupRegistration(fields: seq<Question>) returns (matches: seq<Match>)
    ensures matches == Detect(fields, 0)
  {
    matches := [];
    var i := 0;
    while i <= |fields| - 3
      invariant 0 <= i
      invariant matches + Detect(fields, i) == Detect(fields, 0)
      decreases |fields| - i
    {
      var f1 := fields[i];
      var f2 := fields[i + 1];
      var f3 := fields[i + 2];
      if IsNameField(f1) && IsRoleField(f2) && IsGroupField(f3) {
        matches := matches + [Match(i, f1, f2, f3)];
        i := i + 3;
      } else {
        i := i + 1;
      }
    }
  }

  // ---------------------------------------------------------------------------
  // Properties

  /** Fewer than three fields hold no triple. */
  lemma DetectShort(fields: seq<Question>)
    requires |fields| < 3
    ensures Detect(fields, 0) == []
  {
  }

  /** Every reported match is a genuine triple at its own index, at or after `i`. */
  lemma {:induction false} DetectSound(fields: seq<Question>, i: nat)
    ensures forall m :: m in Detect(fields, i) ==>
      i <= m.startIndex && m.startIndex + 3 <= |fields| && TripleAt(fields, m.startIndex) &&
      m.nameField == fields[m.startIndex] && m.roleField == fields[m.startIndex + 1] &&
      m.groupField == fields[m.startIndex + 2]
    decreases |fields| - i
  {
    if i + 3 > |fields| {
    } else if TripleAt(fields, i) {
      DetectSound(fields, i + 3);
    } else {
      DetectSound(fields, i + 1);
    }
  }

  /** Matches come in increasing order of index, and two of them are at least three
      fields apart, so no two triples overlap. */
  lemma {:induction false} DetectOrdered(fields: seq<Question>, i: nat)
    ensures var ms := Detect(fields, i);
      forall a, b :: 0 <= a < b < |ms| ==> ms[a].startIndex + 3 <= ms[b].startIndex
    decreases |fields| - i
  {
    var ms := Detect(fields, i);
    if i + 3 > |fields| {
    } else if TripleAt(fields, i) {
      var rest := Detect(fields, i + 3);
      DetectOrdered(fields, i + 3);
      DetectSound(fields, i + 3);
      assert ms == [Match(i, fields[i], fields[i + 1], fields[i + 2])] + rest;
      forall a, b | 0 <= a < b < |ms|
        ensures ms[a].startIndex + 3 <= ms[b].startIndex
      {
        assert ms[b] == rest[b - 1];
        assert rest[b - 1] in Detect(fields, i + 3);
        if a > 0 {
          assert ms[a] == rest[a - 1];
        } else {
          assert ms[a].startIndex == i;
        }
      }
    } else {
      assert ms == Detect(fields, i + 1);
      DetectOrdered(fields, i + 1);
    }
  }

  /** A triple at `j` is reported unless it begins inside an earlier reported triple. */
  lemma {:induction false} DetectComplete(fields: seq<Question>, i: nat, j: nat)
    requires i <= j && j + 3 <= |fields| && TripleAt(fields, j)
    requires forall m :: m in Detect(fields, i) ==> !(m.startIndex < j <= m.startIndex + 2)
    ensures exists m :: m in Detect(fields, i) && m.startIndex == j
    decreases |fields| - i
  {
    var ms := Detect(fields, i);
    if i == j {
      assert ms[0].startIndex == j;
    } else if TripleAt(fields, i) {
      var head := Match(i, fields[i], fields[i + 1], fields[i + 2]);
      assert ms == [head] + Detect(fields, i + 3);
      assert head in ms;
      assert i + 3 <= j;
      DetectComplete(fields, i + 3, j);
      var m :| m in Detect(fields, i + 3) && m.startIndex == j;
      assert m in ms;
    } else {
      DetectComplete(fields, i + 1, j);
    }
  }
}
