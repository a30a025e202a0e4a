/** The add/edit car form: its feature list editor, the effect that copies the list into the
    form values, and the validation schema. */
module CarForm {
  import opened Wrappers
  import opened Text
  import opened Seqs

  /** The form values the schema checks; prices and years are the numbers the inputs are
      coerced to, `image` a string the URL check is applied to. */
  datatype CarFormValues = CarFormValues(
    name: string, category: string, price: int, year: int, transmission: string,
    fuel: string, engine: string, description: string, image: string, isAvailable: bool,
    features: seq<string>)

  /** `carFormSchema`, with the URL check as a parameter. */
  predicate CarFormAccepts(v: CarFormValues, isUrl: string -> bool) {
    && |v.name| >= 2
    && |v.category| >= 1
    && v.price >= 100
    && v.year >= 1990
    && |v.transmission| >= 1
    && |v.fuel| >= 1
    && |v.engine| >= 1
    && |v.description| >= 10
    && isUrl(v.image)
    && |v.features| >= 1
  }

  /** Both minimums are inclusive: an accepted form stays accepted at price 100 and year 1990
      and is refused at 99 and 1989; emptying its feature list refuses it; availability
      never matters. */
  lemma CarFormBounds(v: CarFormValues, isUrl: string -> bool, available: bool)
    requires CarFormAccepts(v, isUrl)
    ensures CarFormAccepts(v.(price := 100), isUrl) && !CarFormAccepts(v.(price := 99), isUrl)
    ensures CarFormAccepts(v.(year := 1990), isUrl) && !CarFormAccepts(v.(year := 1989), isUrl)
    ensures !CarFormAccepts(v.(features := []), isUrl)
    ensures CarFormAccepts(v.(isAvailable := available), isUrl)
  {
  }

  /** The values of a new car, whatever year the clock gives: the form cannot be sent as it
      opens, since its name is empty and it has no feature. */
  function NewCarDefaults(currentYear: int): (v: CarFormValues)
    ensures forall isUrl: string -> bool :: !CarFormAccepts(v, isUrl)
  {
    CarFormValues("", "", 1000, currentYear, "", "", "", "", "", true, [])
  }

  predicate Distinct(s: seq<string>) {
    forall i, j :: 0 <= i < j < |s| ==> s[i] != s[j]
  }

  /** `handleAddFeature` on the list: the trimmed input is appended when it is not blank and
      not already listed. */
  function AddFeature(features: seq<string>, input: string): (r: seq<string>)
    ensures r == features || r == features + [Trim(input)]
    ensures r != features <==> Trim(input) != "" && Trim(input) !in features
  {
    var t := Trim(input);
    if t != "" && t !in features then features + [t] else features
  }

  function IsNot(feature: string): string -> bool {
    (f: string) => f != feature
  }

  /** `handleRemoveFeature` on the list: every entry equal to the argument goes. */
  function RemoveFeature(features: seq<string>, feature: string): (r: seq<string>)
    ensures multiset(r) <= multiset(features)
    ensures forall f :: f in r <==> f in features && f != feature
    ensures forall f :: f != feature ==> multiset(r)[f] == multiset(features)[f]
  {
    FilterSubMultiset(features, IsNot(feature));
    FilterCounts(features, IsNot(feature));
    Filter(features, IsNot(feature))
  }

  /** Adding keeps a list free of duplicates, and what it adds is trimmed and not blank. */
  lemma AddFeatureClean(features: seq<string>, input: string)
    requires Distinct(features)
    ensures Distinct(AddFeature(features, input))
    ensures forall f :: f in AddFeature(features, input) && f !in features
              ==> f != "" && Trim(f) == f && f == Trim(input)
  {
    var t := Trim(input);
    TrimIdempotent(input);
    if t != "" && t !in features {
      var r := features + [t];
      assert AddFeature(features, input) == r;
      forall i, j | 0 <= i < j < |r| ensures r[i] != r[j] {
        assert r[i] == features[i];
        if j == |features| {
          assert r[j] == t;
          assert features[i] in features;
        } else {
          assert r[j] == features[j];
        }
      }
    } else {
      assert AddFeature(features, input) == features;
    }
  }

  /** A list is free of duplicates when its first entry is not repeated and the rest is. */
  lemma DistinctCons(x: string, t: seq<string>)
    requires Distinct(t) && x !in t
    ensures Distinct([x] + t)
  {
    var r := [x] + t;
    forall i, j | 0 <= i < j < |r| ensures r[i] != r[j] {
      assert r[j] == t[j - 1];
      if i > 0 {
        assert r[i] == t[i - 1];
      }
    }
  }

  /** The first entry of a list free of duplicates is not among the others. */
  lemma DistinctHead(s: seq<string>)
    requires Distinct(s) && s != []
    ensures s[0] !in s[1..]
  {
  }

  /** Removing keeps a list free of duplicates. */
  lemma {:induction false} RemoveFeatureDistinct(features: seq<string>, feature: string)
    requires Distinct(features)
    ensures Distinct(RemoveFeature(features, feature))
  {
    if features != [] {
      var head, rest := features[0], features[1..];
      assert features == [head] + rest;
      assert Distinct(rest);
      RemoveFeatureDistinct(rest, feature);
      var tail := RemoveFeature(rest, feature);
      FilterCons(head, rest, IsNot(feature));
      if head != feature {
        DistinctHead(features);
        assert head !in tail;
        DistinctCons(head, tail);
      }
    }
  }

  /** Adding a new feature and then removing it gives back the list. */
  lemma AddThenRemove(features: seq<string>, input: string)
    requires Trim(input) != "" && Trim(input) !in features
    ensures RemoveFeature(AddFeature(features, input), Trim(input)) == features
  {
    FilterAppendedOut(features, Trim(input), IsNot(Trim(input)));
  }

  /** The form's state: the feature list, the feature input, the form values and the
      submitting flag. */
  class CarFormState {
    var features: seq<string>
    var newFeature: string
    var values: CarFormValues
    var isSubmitting: bool

    /** The effect's invariant: the form's `features` value is the feature list. */
    predicate Mirrored()
      reads this
    {
      values.features == features
    }

    /** The form opened on a car (its features, or none) or on a new car. */
    constructor (carFeatures: Option<seq<string>>, initial: CarFormValues)
      ensures features == (if carFeatures.Some? then carFeatures.value else [])
      ensures newFeature == "" && !isSubmitting
      ensures values == initial.(features := features) && Mirrored()
    {
      var list := if carFeatures.Some? then carFeatures.value else [];
      features := list;
      newFeature := "";
      values := initial.(features := list);
      isSubmitting := false;
    }

    method SetNewFeature(input: string)
      modifies this`newFeature
      ensures newFeature == input
    {
      newFeature := input;
    }

    /** The effect that runs after every change of the list. */
    method SyncFeatures()
      modifies this`values
      ensures values == old(values).(features := features) && Mirrored()
    {
      values := values.(features := features);
    }

    /** `handleAddFeature`: append the trimmed input and clear it, or change nothing. */
    method HandleAddFeature()
      modifies this`features, this`newFeature, this`values
      ensures features == AddFeature(old(features), old(newFeature))
      ensures newFeature == if features == old(features) then old(newFeature) else ""
      ensures values == old(values).(features := features) && Mirrored()
    {
      var t := Trim(newFeature);
      if t != "" && t !in features {
        features := features + [t];
        newFeature := "";
      }
      SyncFeatures();
    }

    /** `handleRemoveFeature`. */
    method HandleRemoveFeature(feature: string)
      modifies this`features, this`values
      ensures features == RemoveFeature(old(features), feature)
      ensures values == old(values).(features := features) && Mirrored()
    {
      features := RemoveFeature(features, feature);
      SyncFeatures();
    }

    /** The submit button: values the schema accepts go to `onSubmit`, whose mock request
        always succeeds; `isSubmitting` is false once it returns. */
    method Submit(isUrl: string -> bool) returns (saved: bool)
      modifies this`isSubmitting
      ensures saved == CarFormAccepts(values, isUrl)
      ensures isSubmitting == if saved then false else old(isSubmitting)
    {
      saved := CarFormAccepts(values, isUrl);
      if saved {
        isSubmitting := true;
        isSubmitting := false;
      }
    }
  }
}
