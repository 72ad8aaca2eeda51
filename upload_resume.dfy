/** The resume upload dialog (profile-photo/UploadResume.tsx): the parsed
    resume arrives as JSON, `transformDates` rewrites its `"MM/YYYY"` date
    strings into `{ month, year }` objects, and the two handlers guard the
    upload and the save. JSON objects are maps, so key order is not kept. */
module UploadResume {

  import opened Wrappers
  import opened Text
  import opened ResumeData
  import opened JsonValue

  /** `{ month, year }`. */
  function DateObject(month: string, year: string): Json {
    JObj(map["month" := JStr(month), "year" := JStr(year)])
  }

  /** `v?.split('/')[0] || ''` and `v?.split('/')[1] || ''`: a missing or
      null date gives two empty strings, a string gives the parts around its
      first two slashes, and anything else has no `split` and throws. */
  function DateParts(v: Option<Json>): (r: Result<(string, string), string>)
    ensures (v.None? || v == Some(JNull)) ==> r == Success(("", ""))
    ensures r.Failure? <==> v.Some? && !v.value.JNull? && !v.value.JStr?
  {
    if v.None? || v.value.JNull? then Success(("", ""))
    else if v.value.JStr? then
      var parts := Split(v.value.s, '/');
      Success((parts[0], if |parts| > 1 then parts[1] else ""))
    else Failure("TypeError: split is not a function")
  }

  /** The `{ month, year }` object a date property becomes. */
  function DateField(v: Option<Json>): Json
    requires DateParts(v).Success?
  {
    DateObject(DateParts(v).value.0, DateParts(v).value.1)
  }

  /** A date with exactly one slash is taken apart losslessly: month, slash
      and year give the string back. */
  lemma DatePartsRoundTrip(s: string)
    requires CountChar(s, '/') == 1
    ensures DateParts(Some(JStr(s))).Success?
    ensures var (month, year) := DateParts(Some(JStr(s))).value; month + "/" + year == s
  {
    var parts := Split(s, '/');
    SplitCount(s, '/');
    JoinSplit(s, '/');
    assert parts[1..] == [parts[1]];
    assert Join(parts, "/") == parts[0] + "/" + parts[1];
  }

  /** A date string without a slash is all month and no year. */
  lemma DatePartsNoSlash(s: string)
    requires '/' !in s
    ensures DateParts(Some(JStr(s))) == Success((s, ""))
  {
    SplitFree(s, '/');
  }

  /** The start date and end date of one education, experience, project or
      involvement entry: the entry's own properties are spread into a new
      object and the two dates written over them; a current entry
      (`isPresent` truthy) gets an empty end date and its end date string is
      never read. A null entry throws on reading its `startDate`, and so
      does a date property that is present but neither null nor a string
      (a number, boolean, array or object has no `split`); any other value
      that is not an object has no date properties, so it is spread and
      given empty dates. */
  function TransformDated(entry: Json): (r: Result<Json, string>)
    ensures r.Success? <==> (!entry.JNull? && DateParts(Property(entry, "startDate")).Success?
      && (Truthy(Property(entry, "isPresent")) || DateParts(Property(entry, "endDate")).Success?))
    ensures r.Success? ==> (r.value.JObj?
      && r.value.fields.Keys == Spread(entry).Keys + {"startDate", "endDate"}
      && (forall k :: k in Spread(entry) && k != "startDate" && k != "endDate" ==> r.value.fields[k] == Spread(entry)[k]))
    ensures r.Success? ==> (
      r.value.fields["startDate"] == DateField(Property(entry, "startDate"))
      && r.value.fields["endDate"] == (if Truthy(Property(entry, "isPresent")) then DateObject("", "")
           else DateField(Property(entry, "endDate"))))
    ensures !entry.JNull? && !entry.JObj? ==>
      r == Success(JObj(Spread(entry)["startDate" := DateObject("", "")]["endDate" := DateObject("", "")]))
  {
    if entry.JNull? then Failure("TypeError: cannot read properties of null")
    else
      var start := DateParts(Property(entry, "startDate"));
      if start.Failure? then Failure(start.error)
      else
        var end := if Truthy(Property(entry, "isPresent")) then Success(("", "")) else DateParts(Property(entry, "endDate"));
        if end.Failure? then Failure(end.error)
        else Success(JObj(Spread(entry)["startDate" := DateObject(start.value.0, start.value.1)]
                                       ["endDate" := DateObject(end.value.0, end.value.1)]))
  }

  /** The issued and expiration dates of a certification, with no
      `isPresent` test; as for the other sections, a null entry throws, and
      so does a date property that is present but neither null nor a
      string. */
  function TransformCertification(entry: Json): (r: Result<Json, string>)
    ensures r.Success? <==> (!entry.JNull? && DateParts(Property(entry, "issuedDate")).Success?
      && DateParts(Property(entry, "expirationDate")).Success?)
    ensures r.Success? ==> (r.value.JObj?
      && r.value.fields.Keys == Spread(entry).Keys + {"issuedDate", "expirationDate"}
      && (forall k :: k in Spread(entry) && k != "issuedDate" && k != "expirationDate" ==> r.value.fields[k] == Spread(entry)[k]))
    ensures r.Success? ==> (
      r.value.fields["issuedDate"] == DateField(Property(entry, "issuedDate"))
      && r.value.fields["expirationDate"] == DateField(Property(entry, "expirationDate")))
    ensures !entry.JNull? && !entry.JObj? ==>
      r == Success(JObj(Spread(entry)["issuedDate" := DateObject("", "")]["expirationDate" := DateObject("", "")]))
  {
    if entry.JNull? then Failure("TypeError: cannot read properties of null")
    else
      var issued := DateParts(Property(entry, "issuedDate"));
      if issued.Failure? then Failure(issued.error)
      else
        var expires := DateParts(Property(entry, "expirationDate"));
        if expires.Failure? then Failure(expires.error)
        else Success(JObj(Spread(entry)["issuedDate" := DateObject(issued.value.0, issued.value.1)]
                                       ["expirationDate" := DateObject(expires.value.0, expires.value.1)]))
  }

  /** A string entry such as `"x"` in `education` does not throw: it is
      spread into its characters and given empty dates, and the section is
      saved in that form. */
  lemma StringEntrySpread()
    ensures TransformDated(JStr("x")) == Success(JObj(map["0" := JStr("x"),
      "startDate" := DateObject("", ""), "endDate" := DateObject("", "")]))
    ensures TransformSection(map["education" := JArr([JStr("x")])], "education", TransformDated)
      == Success(map["education" := JArr([JObj(map["0" := JStr("x"),
        "startDate" := DateObject("", ""), "endDate" := DateObject("", "")])])])
  {
    var chars := seq(1, k requires 0 <= k < 1 => JStr(["x"[k]]));
    assert chars == [JStr("x")];
    assert chars[..0] == [];
    assert Text.NatToString(0) == "0";
    assert IndexFields(chars) == IndexFields(chars[..0])["0" := JStr("x")];
    assert Spread(JStr("x")) == map["0" := JStr("x")];
    var entry := JObj(map["0" := JStr("x"), "startDate" := DateObject("", ""), "endDate" := DateObject("", "")]);
    var items := [JStr("x")];
    assert items[1..] == [];
    assert MapAll(items, TransformDated) == Success([entry] + []);
    assert [entry] + [] == [entry];
    var data := map["education" := JArr(items)];
    assert Truthy(Get(data, "education"));
    assert data["education" := JArr([entry])] == map["education" := JArr([entry])];
    assert data["education"].items == items;
    assert TransformSection(data, "education", TransformDated) == Success(data["education" := JArr([entry])]);
  }

  /** A numeric start date or expiration date has no `split`, so the entry
      throws even though it is an object. */
  lemma NumericDateThrows()
    ensures TransformDated(JObj(map["startDate" := JNum(2020)])).Failure?
    ensures TransformCertification(JObj(map["expirationDate" := JNum(2020)])).Failure?
  {
    assert Property(JObj(map["startDate" := JNum(2020)]), "startDate") == Some(JNum(2020));
    assert Property(JObj(map["expirationDate" := JNum(2020)]), "expirationDate") == Some(JNum(2020));
  }

  /** `items.map(f)`, failing on the first element `f` throws on. */
  function MapAll(items: seq<Json>, f: Json -> Result<Json, string>): (r: Result<seq<Json>, string>)
    ensures r.Success? ==> |r.value| == |items| && forall k :: 0 <= k < |items| ==> f(items[k]) == Success(r.value[k])
    ensures r.Failure? <==> exists k :: 0 <= k < |items| && f(items[k]).Failure?
    decreases |items|
  {
    if items == [] then Success([])
    else
      var head := f(items[0]);
      if head.Failure? then Failure(head.error)
      else
        var rest := MapAll(items[1..], f);
        if rest.Failure? then Failure(rest.error)
        else Success([head.value] + rest.value)
  }

  /** `if (transformed[key]) transformed[key] = transformed[key].map(f)`:
      only a truthy section is rewritten, and only an array has `map`. */
  function TransformSection(data: map<string, Json>, key: string, f: Json -> Result<Json, string>): (r: Result<map<string, Json>, string>)
    ensures r.Success? ==> (r.value.Keys == data.Keys
      && forall k :: k in data && k != key ==> r.value[k] == data[k])
    ensures !Truthy(Get(data, key)) ==> r == Success(data)
    ensures Truthy(Get(data, key)) ==> (r.Success? <==> data[key].JArr? && MapAll(data[key].items, f).Success?)
    ensures r.Success? && Truthy(Get(data, key)) ==> r.value[key] == JArr(MapAll(data[key].items, f).value)
  {
    if !Truthy(Get(data, key)) then Success(data)
    else if !data[key].JArr? then Failure("TypeError: map is not a function")
    else
      var mapped := MapAll(data[key].items, f);
      if mapped.Failure? then Failure(mapped.error) else Success(data[key := JArr(mapped.value)])
  }

  /** The keys `transformDates` rewrites. */
  const DatedKeys: seq<string> := ["education", "experience", "project", "involvement"]

  /** The dated sections rewritten one after another with `f`, stopping at
      the first that throws. */
  function TransformEach(data: map<string, Json>, keys: seq<string>, f: Json -> Result<Json, string>): (r: Result<map<string, Json>, string>)
    ensures r.Success? ==> r.value.Keys == data.Keys
    decreases |keys|
  {
    if keys == [] then Success(data)
    else
      var first := TransformSection(data, keys[0], f);
      if first.Failure? then first else TransformEach(first.value, keys[1..], f)
  }

  /** Rewriting several sections keeps the keys and copies every key that
      is not one of them. */
  lemma {:induction false} TransformEachKeeps(data: map<string, Json>, keys: seq<string>, f: Json -> Result<Json, string>)
    requires TransformEach(data, keys, f).Success?
    ensures TransformEach(data, keys, f).value.Keys == data.Keys
    ensures forall k :: k in data && k !in keys ==> TransformEach(data, keys, f).value[k] == data[k]
    decreases |keys|
  {
    if keys != [] {
      var first := TransformSection(data, keys[0], f);
      TransformEachKeeps(first.value, keys[1..], f);
      forall k | k in data && k !in keys
        ensures TransformEach(data, keys, f).value[k] == data[k]
      {
        assert k !in keys[1..] && k != keys[0];
      }
    }
  }

  /** A rewritten section holds `f` of each of its entries, in order: it is
      rewritten once, and the sections after it leave it alone. */
  lemma {:induction false} TransformEachSection(data: map<string, Json>, keys: seq<string>, f: Json -> Result<Json, string>, key: string)
    requires forall i, j :: 0 <= i < j < |keys| ==> keys[i] != keys[j]
    requires key in keys && Truthy(Get(data, key))
    requires TransformEach(data, keys, f).Success?
    ensures data[key].JArr? && MapAll(data[key].items, f).Success?
    ensures TransformEach(data, keys, f).value[key] == JArr(MapAll(data[key].items, f).value)
    decreases |keys|
  {
    var first := TransformSection(data, keys[0], f);
    assert forall i, j :: 0 <= i < j < |keys[1..]| ==> keys[1..][i] != keys[1..][j] by {
      forall i, j | 0 <= i < j < |keys[1..]| ensures keys[1..][i] != keys[1..][j] {
        assert keys[1..][i] == keys[i + 1] && keys[1..][j] == keys[j + 1];
      }
    }
    if keys[0] == key {
      assert key !in keys[1..] by {
        forall i | 0 <= i < |keys[1..]| ensures keys[1..][i] != key {
          assert keys[1..][i] == keys[i + 1];
        }
      }
      TransformEachKeeps(first.value, keys[1..], f);
    } else {
      assert key in keys[1..] by {
        var i :| 0 <= i < |keys| && keys[i] == key;
        assert keys[1..][i - 1] == key;
      }
      assert Get(first.value, key) == Get(data, key);
      TransformEachSection(first.value, keys[1..], f, key);
    }
  }

  /** `transformDates`: the four dated sections, then the certifications. */
  function TransformDates(data: map<string, Json>): Result<map<string, Json>, string> {
    var dated := TransformEach(data, DatedKeys, TransformDated);
    if dated.Failure? then dated
    else TransformSection(dated.value, "certification", TransformCertification)
  }

  /** Only the five section keys can change: every other key, such as
      `projects` or `certifications`, is copied, and no key is added or
      removed, so an absent section stays absent. */
  lemma OtherKeysKept(data: map<string, Json>)
    requires TransformDates(data).Success?
    ensures TransformDates(data).value.Keys == data.Keys
    ensures forall k :: k in data && k !in DatedKeys + ["certification"] ==> TransformDates(data).value[k] == data[k]
  {
    var dated := TransformEach(data, DatedKeys, TransformDated);
    TransformEachKeeps(data, DatedKeys, TransformDated);
    forall k | k in data && k !in DatedKeys + ["certification"]
      ensures TransformDates(data).value[k] == data[k]
    {
      assert k !in DatedKeys && k != "certification";
    }
  }

  lemma DatedKeysDistinct()
    ensures forall i, j :: 0 <= i < j < |DatedKeys| ==> DatedKeys[i] != DatedKeys[j]
  {
  }

  /** After `transformDates`, each dated section that was set holds
      `TransformDated` of each of its entries, in order. */
  lemma DatedSectionTransformed(data: map<string, Json>, key: string)
    requires key in DatedKeys && Truthy(Get(data, key))
    requires TransformDates(data).Success?
    ensures data[key].JArr? && key in TransformDates(data).value
    ensures TransformDates(data).value[key].JArr?
    ensures |TransformDates(data).value[key].items| == |data[key].items|
    ensures forall k :: 0 <= k < |data[key].items| ==>
      TransformDated(data[key].items[k]) == Success(TransformDates(data).value[key].items[k])
  {
    DatedKeysDistinct();
    TransformEachSection(data, DatedKeys, TransformDated, key);
    assert key != "certification";
  }

  /** After `transformDates`, a certification list that was set holds
      `TransformCertification` of each of its entries, in order. */
  lemma CertificationSectionTransformed(data: map<string, Json>)
    requires Truthy(Get(data, "certification"))
    requires TransformDates(data).Success?
    ensures data["certification"].JArr? && "certification" in TransformDates(data).value
    ensures TransformDates(data).value["certification"].JArr?
    ensures |TransformDates(data).value["certification"].items| == |data["certification"].items|
    ensures forall k :: 0 <= k < |data["certification"].items| ==>
      TransformCertification(data["certification"].items[k]) == Success(TransformDates(data).value["certification"].items[k])
  {
    var dated := TransformEach(data, DatedKeys, TransformDated);
    TransformEachKeeps(data, DatedKeys, TransformDated);
    assert "certification" !in DatedKeys;
    assert Get(dated.value, "certification") == Get(data, "certification");
  }

  /** A current entry's end date is emptied whatever it held; a start date
      `"m/y"` becomes `{ month: m, year: y }`. */
  lemma PresentClearsEndDate(fields: map<string, Json>, month: string, year: string)
    requires Truthy(Get(fields, "isPresent"))
    requires '/' !in month && '/' !in year
    requires Get(fields, "startDate") == Some(JStr(month + "/" + year))
    ensures TransformDated(JObj(fields)).Success?
    ensures TransformDated(JObj(fields)).value.fields["endDate"] == DateObject("", "")
    ensures TransformDated(JObj(fields)).value.fields["startDate"] == DateObject(month, year)
  {
    SplitCons(month, '/', year);
    SplitFree(year, '/');
    assert month + "/" + year == month + ['/'] + year;
  }

  /** A certification's expiration date is split even when the entry says it
      is current. */
  lemma CertificationIgnoresPresent(fields: map<string, Json>, month: string, year: string)
    requires Truthy(Get(fields, "isPresent"))
    requires Get(fields, "issuedDate").None?
    requires '/' !in month && '/' !in year
    requires Get(fields, "expirationDate") == Some(JStr(month + "/" + year))
    ensures TransformCertification(JObj(fields)).Success?
    ensures TransformCertification(JObj(fields)).value.fields["expirationDate"] == DateObject(month, year)
  {
    SplitCons(month, '/', year);
    SplitFree(year, '/');
    assert month + "/" + year == month + ['/'] + year;
  }

  const SelectFile := "Please select a file to upload."
  const Parsed := "Resume parsed successfully! Please review the extracted information."
  const UploadFailed := "Failed to upload file. Please try again."
  const NothingToSave := "No parsed data to save."
  const Saved := "Resume data saved to your profile successfully!"
  const SaveFailed := "Failed to save resume data to your profile. Please try again."

  /** The dialog's state; a file is known by its name. */
  class UploadDialog {
    var selectedFile: Option<string>
    var parsedData: Option<map<string, Json>>
    var message: Option<string>
    var uploading: bool
    var saving: bool
    var closed: bool

    constructor()
      ensures selectedFile == None && parsedData == None && message == None
      ensures !uploading && !saving && !closed
    {
      selectedFile := None;
      parsedData := None;
      message := None;
      uploading := false;
      saving := false;
      closed := false;
    }

    /** `handleFileChange`: choosing a file forgets what was parsed. */
    method FileChange(file: Option<string>)
      modifies this
      ensures file.Some? ==> selectedFile == file && parsedData == None
      ensures file.None? ==> selectedFile == old(selectedFile) && parsedData == old(parsedData)
      ensures message == old(message) && uploading == old(uploading) && saving == old(saving) && closed == old(closed)
    {
      if file.Some? {
        selectedFile := file;
        parsedData := None;
      }
    }

    /** `handleUpload`; `reply` is the answer to the upload, its body the
        parsed resume. Returns whether a request was sent. */
    method Upload(reply: Reply<map<string, Json>>) returns (sent: bool)
      modifies this
      ensures sent <==> old(selectedFile).Some?
      ensures !sent ==> message == Some(SelectFile) && parsedData == old(parsedData)
      ensures sent && Succeeded(reply) ==> parsedData == Some(reply.body) && message == Some(Parsed)
      ensures sent && !Succeeded(reply) ==> parsedData == old(parsedData) && message == Some(UploadFailed)
      ensures uploading == old(uploading) || !uploading
      ensures sent ==> !uploading
      ensures selectedFile == old(selectedFile) && saving == old(saving) && closed == old(closed)
    {
      if selectedFile.None? {
        message := Some(SelectFile);
        return false;
      }
      uploading := true;
      message := None;
      if Succeeded(reply) {
        parsedData := Some(reply.body);
        message := Some(Parsed);
      } else {
        message := Some(UploadFailed);
      }
      uploading := false;
      return true;
    }

    /** `handleSaveToProfile`: without parsed data or a user id nothing is
        sent; a transformation that throws is reported like a failed
        request. Returns the data sent, if any. */
    method SaveToProfile(userID: string, reply: Reply<()>) returns (sent: Option<map<string, Json>>)
      modifies this
      ensures old(parsedData).None? || userID == [] ==>
        sent.None? && message == Some(NothingToSave) && parsedData == old(parsedData) && !closed == !old(closed)
        && saving == old(saving)
      ensures old(parsedData).Some? && userID != [] ==> !saving
      ensures old(parsedData).Some? && userID != [] && TransformDates(old(parsedData).value).Failure? ==> sent.None?
      ensures old(parsedData).Some? && userID != [] && TransformDates(old(parsedData).value).Success? ==>
        sent == Some(TransformDates(old(parsedData).value).value)
      ensures old(parsedData).Some? && userID != [] && sent.Some? && Succeeded(reply) ==>
        message == Some(Saved) && parsedData == None && selectedFile == None && closed
      ensures old(parsedData).Some? && userID != [] && (sent.None? || !Succeeded(reply)) ==>
        message == Some(SaveFailed) && parsedData == old(parsedData) && selectedFile == old(selectedFile) && closed == old(closed)
      ensures uploading == old(uploading)
    {
      if parsedData.None? || userID == [] {
        message := Some(NothingToSave);
        return None;
      }
      var transformed := TransformDates(parsedData.value);
      saving := true;
      message := None;
      sent := if transformed.Success? then Some(transformed.value) else None;
      if sent.None? {
        message := Some(SaveFailed);
      } else {
        if Succeeded(reply) {
          message := Some(Saved);
          parsedData := None;
          selectedFile := None;
          closed := true;
        } else {
          message := Some(SaveFailed);
        }
      }
      saving := false;
    }
  }
}
