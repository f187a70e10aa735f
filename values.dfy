/** The conversion of a decoded JSON argument value into its display form
    (the function getValue, present as two identical copies in the transfer
    and deploy-info type packages; this module models both). */
module ArgValues {
  import opened Outcomes
  import opened Text

  /** A dynamically typed value as the JSON decoder hands it over. `Other`
      stands for a value of any type the conversion does not single out,
      carrying the text that `%v` formatting gives it. */
  datatype Value =
    | Null
    | Bool(b: bool)
    | Int(i: int)
    | Str(s: string)
    | Array(items: seq<Value>)
    | StrMap(fields: map<string, Value>)
    | IntMap(entries: map<int, Value>)
    | Other(shown: string)

  /** What the conversion returns: a string, a string-keyed map of converted
      values, or an array passed through untouched. */
  datatype Shown =
    | Plain(text: string)
    | Object(members: map<string, Shown>)
    | List(items: seq<Value>)

  function GetValue(v: Value): Shown
    decreases v
  {
    match v
    case StrMap(m) => Object(map k | k in m :: GetValue(m[k]))
    case Array(a) => List(a)
    case IntMap(m) =>
      // each original key k is stored under IntToString(k); the entry for a
      // printed key is found again through the key it parses back to
      Object(map s | s in KeyImage(m.Keys) ::
        KeyImageParses(m.Keys, s); GetValue(m[ParseDecimal(s).value]))
    case Null => Plain("")
    case Bool(b) => Plain(if b then "true" else "false")
    case Int(i) => Plain(IntToString(i))
    case Str(s) => Plain(s)
    case Other(s) => Plain(s)
  }

  /** Scalars become strings: nil the empty string, booleans their name,
      integers their decimal form (which parses back to the integer),
      strings themselves. */
  lemma GetValueScalars(v: Value)
    ensures v.Null? ==> GetValue(v) == Plain("")
    ensures v.Bool? ==> GetValue(v) == Plain(if v.b then "true" else "false")
    ensures v.Int? ==> GetValue(v).Plain? && ParseDecimal(GetValue(v).text) == Some(v.i)
    ensures v.Str? ==> GetValue(v) == Plain(v.s)
  {
    if v.Int? { ParseIntToString(v.i); }
  }

  /** A string-keyed map keeps exactly its keys; each value is converted. */
  lemma GetValueStrMap(m: map<string, Value>)
    ensures GetValue(StrMap(m)).Object?
    ensures GetValue(StrMap(m)).members.Keys == m.Keys
    ensures forall k :: k in m ==> GetValue(StrMap(m)).members[k] == GetValue(m[k])
  {
  }

  /** An array comes back as it went in; its elements are not converted. */
  lemma GetValueArray(a: seq<Value>)
    ensures GetValue(Array(a)) == List(a)
  {
  }

  /** An int-keyed map becomes a string-keyed map with one entry per
      original key, under the key's decimal form, each value converted. */
  lemma GetValueIntMap(m: map<int, Value>)
    ensures GetValue(IntMap(m)).Object?
    ensures GetValue(IntMap(m)).members.Keys == KeyImage(m.Keys)
    ensures |GetValue(IntMap(m)).members| == |m|
    ensures forall k :: k in m ==> GetValue(IntMap(m)).members[IntToString(k)] == GetValue(m[k])
  {
    KeyImageSize(m.Keys);
    IntToStringInjective();
    var r := GetValue(IntMap(m)).members;
    assert |r| == |r.Keys|;
    forall k | k in m
      ensures r[IntToString(k)] == GetValue(m[k])
    {
      assert IntToString(k) in KeyImage(m.Keys);
      ParseIntToString(k);
    }
  }

  /** The decimal forms of a set of integers. */
  function KeyImage(ks: set<int>): set<string>
  {
    set k | k in ks :: IntToString(k)
  }

  /** Every key of the converted map is the decimal form of an original key. */
  lemma KeyImageParses(ks: set<int>, s: string)
    requires s in KeyImage(ks)
    ensures ParseDecimal(s).Some? && ParseDecimal(s).value in ks
  {
    var k :| k in ks && IntToString(k) == s;
    ParseIntToString(k);
  }

  /** Printing a set of integers keeps its size. */
  lemma {:induction false} KeyImageSize(ks: set<int>)
    ensures |KeyImage(ks)| == |ks|
    decreases |ks|
  {
    if ks != {} {
      if forall k :: k !in ks { assert false; }
      var k0 :| k0 in ks;
      var rest := ks - {k0};
      KeyImageSize(rest);
      assert KeyImage(ks) == KeyImage(rest) + {IntToString(k0)};
      IntToStringInjective();
      assert IntToString(k0) !in KeyImage(rest);
    }
  }
}
