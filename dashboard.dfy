/**
 The dashboard: the eight-field health profile, the check that the
 required fields are filled in, and the image-analysis switch, a two-state
 machine (idle, analyzing) that can only start with an image selected.
 */
module Dashboard {
  import opened Wrappers

  // ---------------------------------------------------------------------
  // Profile data

  datatype ProfileField =
    Weight | Height | Age | Gender | Goal | ActivityType | DaysPerWeek | HealthCondition

  /** Every value is the raw string of its input or select control. */
  datatype ProfileForm = ProfileForm(
    weight: string, height: string, age: string, gender: string,
    goal: string, activityType: string, daysPerWeek: string, healthCondition: string)
  {
    function Get(f: ProfileField): string {
      match f
      case Weight => weight
      case Height => height
      case Age => age
      case Gender => gender
      case Goal => goal
      case ActivityType => activityType
      case DaysPerWeek => daysPerWeek
      case HealthCondition => healthCondition
    }

    /** `{ ...prev, [field]: value }` */
    function With(f: ProfileField, v: string): (r: ProfileForm)
      ensures r.Get(f) == v
      ensures forall g :: g != f ==> r.Get(g) == Get(g)
    {
      match f
      case Weight => this.(weight := v)
      case Height => this.(height := v)
      case Age => this.(age := v)
      case Gender => this.(gender := v)
      case Goal => this.(goal := v)
      case ActivityType => this.(activityType := v)
      case DaysPerWeek => this.(daysPerWeek := v)
      case HealthCondition => this.(healthCondition := v)
    }
  }

  const EmptyProfile := ProfileForm("", "", "", "", "", "", "", "")

  // ---------------------------------------------------------------------
  // Required fields

  /** The fields the profile must have, in the order they are checked. */
  const RequiredFields: seq<ProfileField> := [Weight, Height, Age, Gender, Goal, ActivityType, DaysPerWeek]

  /** Position of a field in the declaration order of the profile. */
  function Rank(f: ProfileField): nat {
    match f
    case Weight => 0
    case Height => 1
    case Age => 2
    case Gender => 3
    case Goal => 4
    case ActivityType => 5
    case DaysPerWeek => 6
    case HealthCondition => 7
  }

  /** `fs` lists fields in declaration order, each at most once. */
  ghost predicate InProfileOrder(fs: seq<ProfileField>) {
    forall i, j :: 0 <= i < j < |fs| ==> Rank(fs[i]) < Rank(fs[j])
  }

  /** A JavaScript string is falsy only when it is empty, so a value made
      of spaces counts as filled in. */
  predicate IsMissing(form: ProfileForm, f: ProfileField) {
    form.Get(f) == ""
  }

  /** `fields.filter(field => !formData[field])` */
  function FilterMissing(form: ProfileForm, fields: seq<ProfileField>): (r: seq<ProfileField>)
    ensures |r| <= |fields|
    ensures forall f :: f in r <==> f in fields && IsMissing(form, f)
  {
    if fields == [] then []
    else
      var rest := FilterMissing(form, fields[1..]);
      if IsMissing(form, fields[0]) then [fields[0]] + rest else rest
  }

  /** Filtering keeps the order of the list it filters. */
  lemma {:induction false} FilterMissingInOrder(form: ProfileForm, fields: seq<ProfileField>)
    requires InProfileOrder(fields)
    ensures InProfileOrder(FilterMissing(form, fields))
  {
    if fields != [] {
      var rest := FilterMissing(form, fields[1..]);
      assert InProfileOrder(fields[1..]) by {
        forall i, j | 0 <= i < j < |fields[1..]| ensures Rank(fields[1..][i]) < Rank(fields[1..][j]) {
          assert fields[1..][i] == fields[i + 1] && fields[1..][j] == fields[j + 1];
        }
      }
      FilterMissingInOrder(form, fields[1..]);
      if IsMissing(form, fields[0]) {
        var r := [fields[0]] + rest;
        forall i, j | 0 <= i < j < |r| ensures Rank(r[i]) < Rank(r[j]) {
          if i == 0 {
            assert r[j] == rest[j - 1] && rest[j - 1] in rest;
            var k :| 0 <= k < |fields[1..]| && fields[1..][k] == r[j];
            assert fields[k + 1] == r[j];
          } else {
            assert r[i] == rest[i - 1] && r[j] == rest[j - 1];
          }
        }
      }
    }
  }

  /** The missing fields of `form`, as the profile check computes them. */
  function MissingFields(form: ProfileForm): (r: seq<ProfileField>)
    ensures |r| <= |RequiredFields|
    ensures forall f :: f in r ==> f in RequiredFields && IsMissing(form, f)
  {
    FilterMissing(form, RequiredFields)
  }

  /** The missing list holds exactly the empty required fields, in the
      order of the required list; the health condition is never in it. */
  lemma MissingFieldsSpec(form: ProfileForm)
    ensures forall f :: f in MissingFields(form) <==> f != HealthCondition && IsMissing(form, f)
    ensures InProfileOrder(MissingFields(form))
    ensures HealthCondition !in MissingFields(form)
  {
    FilterMissingInOrder(form, RequiredFields);
    forall f ensures f in RequiredFields <==> f != HealthCondition {
      if f != HealthCondition {
        assert RequiredFields[Rank(f)] == f;
      }
    }
  }

  /** Membership and order determine such a list: no other list of fields
      is both in order and made of exactly the same fields. */
  lemma {:induction false} InOrderUnique(a: seq<ProfileField>, b: seq<ProfileField>)
    requires InProfileOrder(a) && InProfileOrder(b)
    requires forall f :: f in a <==> f in b
    ensures a == b
  {
    assert a == [] <==> b == [] by {
      if a != [] { assert a[0] in a; }
      if b != [] { assert b[0] in b; }
    }
    if a != [] {
      // The first element of each is the one of least rank.
      assert a[0] in b;
      assert b[0] in a;
      var i :| 0 <= i < |b| && b[i] == a[0];
      var j :| 0 <= j < |a| && a[j] == b[0];
      assert Rank(b[0]) <= Rank(a[0]) <= Rank(a[j]) == Rank(b[0]);
      assert a[0] == b[0] by { RankInjective(a[0], b[0]); }
      forall f ensures f in a[1..] <==> f in b[1..] {
        if f in a[1..] {
          var k :| 1 <= k < |a| && a[k] == f;
          assert f in a;
          var m :| 0 <= m < |b| && b[m] == f;
          assert m != 0 by { assert Rank(f) > Rank(a[0]); }
          assert b[1..][m - 1] == f;
        }
        if f in b[1..] {
          var k :| 1 <= k < |b| && b[k] == f;
          assert f in b;
          var m :| 0 <= m < |a| && a[m] == f;
          assert m != 0 by { assert Rank(f) > Rank(b[0]); }
          assert a[1..][m - 1] == f;
        }
      }
      InOrderUnique(a[1..], b[1..]);
      assert a == [a[0]] + a[1..] && b == [b[0]] + b[1..];
    }
  }

  /** Any list in profile order made of exactly the empty required fields
      is the missing list. */
  lemma MissingFieldsUnique(form: ProfileForm, fs: seq<ProfileField>)
    requires InProfileOrder(fs)
    requires forall f :: f in fs <==> f != HealthCondition && IsMissing(form, f)
    ensures fs == MissingFields(form)
  {
    MissingFieldsSpec(form);
    InOrderUnique(fs, MissingFields(form));
  }

  lemma RankInjective(f: ProfileField, g: ProfileField)
    requires Rank(f) == Rank(g)
    ensures f == g
  {
  }

  // ---------------------------------------------------------------------
  // The page's state

  /** A file chosen in the image input; only its name is shown. */
  datatype ImageFile = ImageFile(name: string)

  /** The toasts the dashboard shows. */
  datatype Toast = NoImageSelected | AnalysisDone | MissingInformation | ProfileSaved

  /** `e.target.files?.[0]`: the first chosen file, if the input has any. */
  function FirstFile(files: Option<seq<ImageFile>>): (r: Option<ImageFile>)
    ensures r.Some? <==> files.Some? && |files.value| > 0
    ensures r.Some? ==> r.value == files.value[0]
  {
    match files
    case None => None
    case Some(list) => if |list| == 0 then None else Some(list[0])
  }

  class DashboardPage {
    var formData: ProfileForm
    var selectedFile: Option<ImageFile>
    var isAnalyzing: bool

    /** Analysis only runs with an image selected. */
    ghost predicate Valid()
      reads this
    {
      isAnalyzing ==> selectedFile.Some?
    }

    /** The analyse button is enabled (`disabled={!selectedFile}`). */
    predicate AnalyzeEnabled()
      reads this
    {
      selectedFile.Some?
    }

    constructor ()
      ensures Valid()
      ensures formData == EmptyProfile && selectedFile == None && !isAnalyzing
    {
      formData := EmptyProfile;
      selectedFile := None;
      isAnalyzing := false;
    }

    /** `handleInputChange`: only the named field changes. */
    method HandleInputChange(field: ProfileField, value: string)
      requires Valid()
      modifies this
      ensures Valid()
      ensures formData == old(formData).With(field, value)
      ensures selectedFile == old(selectedFile) && isAnalyzing == old(isAnalyzing)
    {
      formData := formData.With(field, value);
    }

    /** `handleFileChange`: a chosen file replaces the selection; choosing
        nothing keeps the previous one. */
    method HandleFileChange(files: Option<seq<ImageFile>>)
      requires Valid()
      modifies this
      ensures Valid()
      ensures selectedFile == if FirstFile(files).Some? then FirstFile(files) else old(selectedFile)
      ensures old(selectedFile).Some? ==> selectedFile.Some?
      ensures formData == old(formData) && isAnalyzing == old(isAnalyzing)
    {
      var file := FirstFile(files);
      if file.Some? {
        selectedFile := file;
      }
    }

    /** `handleImageAnalysis`: idle to analyzing, only with an image. */
    method HandleImageAnalysis() returns (toast: Option<Toast>)
      requires Valid()
      modifies this
      ensures Valid()
      ensures old(selectedFile).None? ==> isAnalyzing == old(isAnalyzing) && toast == Some(NoImageSelected)
      ensures old(selectedFile).Some? ==> isAnalyzing && toast == None
      ensures old(AnalyzeEnabled()) <==> isAnalyzing && toast == None
      ensures formData == old(formData) && selectedFile == old(selectedFile)
    {
      if selectedFile.None? {
        return Some(NoImageSelected);
      }
      isAnalyzing := true;
      toast := None;
    }

    /** `handleAnalysisComplete`: back to idle. */
    method HandleAnalysisComplete() returns (toast: Toast)
      requires Valid()
      modifies this
      ensures Valid()
      ensures !isAnalyzing && toast == AnalysisDone
      ensures formData == old(formData) && selectedFile == old(selectedFile)
    {
      isAnalyzing := false;
      toast := AnalysisDone;
    }

    /** `handleSubmitProfile`: lists the empty required fields and reports
        the profile saved only when there are none. Nothing changes. */
    method HandleSubmitProfile() returns (missing: seq<ProfileField>, toast: Toast)
      ensures forall f :: f in missing <==> f != HealthCondition && IsMissing(formData, f)
      ensures InProfileOrder(missing)
      ensures missing == MissingFields(formData)
      ensures toast == ProfileSaved <==> missing == []
      ensures toast == ProfileSaved || toast == MissingInformation
    {
      missing := FilterMissing(formData, RequiredFields);
      MissingFieldsSpec(formData);
      if |missing| > 0 {
        return missing, MissingInformation;
      }
      toast := ProfileSaved;
    }
  }
}
