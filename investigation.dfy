/**
 * Investigation-record helpers: agency and individual name lookups, the
 * "issue to" name, the mode-of-communication conversions between the flag
 * record and the label list, and extension-based file predicates. The name
 * tables, the issuer types and the extension lists are defined outside the
 * modelled code and are parameters here.
 */
module Investigation {
  import opened Wrappers
  import AttachmentHelpers

  const DefaultName: string := "Agency"
  const ComplainantLabel: string := "Complainant"

  /** The communication channels, as a record of flags. */
  datatype ModeOfCommunication = ModeOfCommunication(sms: bool, post: bool, email: bool, whatsapp: bool)

  /** The fields of `RecordData` the helpers read; a falsy id (missing or 0) is `None` or `Some(0)`. */
  datatype RecordData = RecordData(issueTo: Option<string>, issuer: Option<string>, issueToId: Option<int>,
                                   agencyId: Option<int>, modeOfCommunication: Option<ModeOfCommunication>)

  /** The extension lists of `FILE_EXTENSIONS`. */
  datatype FileExtensions = FileExtensions(images: seq<string>, pdf: seq<string>, word: seq<string>, excel: seq<string>, text: seq<string>)

  /** The labels, in the order the conversion lists them. */
  const Labels: seq<string> := ["SMS", "By Post", "Email", "WhatsApp"]

  predicate Falsy(id: Option<int>) { id.None? || id.value == 0 }

  /** A table lookup with the "Agency" default for a falsy id, a missing entry or an empty name. */
  function LookupName(table: map<int, string>, id: Option<int>): (n: string)
    ensures Falsy(id) ==> n == DefaultName
    ensures !Falsy(id) && id.value in table && table[id.value] != "" ==> n == table[id.value]
    ensures !Falsy(id) && (id.value !in table || table[id.value] == "") ==> n == DefaultName
  {
    if Falsy(id) then DefaultName
    else if id.value in table then OrDefault(Some(table[id.value]), DefaultName)
    else DefaultName
  }

  /** `getAgencyName`. */
  function GetAgencyName(agencyNames: map<int, string>, agencyId: Option<int>): string {
    LookupName(agencyNames, agencyId)
  }

  /** `getIndividualName`. */
  function GetIndividualName(individualNames: map<int, string>, issueToId: Option<int>): string {
    LookupName(individualNames, issueToId)
  }

  /** `getIssueToName`: the complainant's name when the record is addressed to the complainant. */
  function GetIssueToName(record: Option<RecordData>, complaintFullName: Option<string>,
                          complainantType: string, individualNames: map<int, string>): (n: string)
    ensures record.None? ==> n == DefaultName
    ensures record.Some? && IsComplainant(record.value, complainantType) ==> n == OrDefault(complaintFullName, ComplainantLabel)
    ensures record.Some? && !IsComplainant(record.value, complainantType) ==> n == GetIndividualName(individualNames, record.value.issueToId)
  {
    if record.None? then DefaultName
    else if IsComplainant(record.value, complainantType) then OrDefault(complaintFullName, ComplainantLabel)
    else GetIndividualName(individualNames, record.value.issueToId)
  }

  predicate IsComplainant(r: RecordData, complainantType: string) {
    r.issueTo == Some(complainantType) || r.issueTo == Some(ComplainantLabel) || r.issuer == Some(complainantType)
  }

  /** `getAgencyNameForDisplay`: the agency lookup when `agencyId` is set, otherwise "Agency". */
  function GetAgencyNameForDisplay(record: Option<RecordData>, agencyNames: map<int, string>): (n: string)
    ensures record.None? || Falsy(record.value.agencyId) ==> n == DefaultName
    ensures record.Some? && !Falsy(record.value.agencyId) ==> n == GetAgencyName(agencyNames, record.value.agencyId)
  {
    if record.None? then DefaultName
    else if !Falsy(record.value.agencyId) then GetAgencyName(agencyNames, record.value.agencyId)
    else if record.value.issueToId == Some(201) || record.value.issueToId == Some(202) then DefaultName
    else DefaultName
  }

  function Flag(m: ModeOfCommunication, mode: string): bool {
    if mode == "SMS" then m.sms
    else if mode == "By Post" then m.post
    else if mode == "Email" then m.email
    else if mode == "WhatsApp" then m.whatsapp
    else false
  }

  /** The labels of `ls`, in their order, whose flag is set: the reference the conversions are held to. */
  function Selected(m: ModeOfCommunication, ls: seq<string>): seq<string>
  {
    if ls == [] then []
    else (if Flag(m, ls[0]) then [ls[0]] else []) + Selected(m, ls[1..])
  }

  /** The selected labels are exactly the labels of `ls` whose flag is set. */
  lemma {:induction false} SelectedMembers(m: ModeOfCommunication, ls: seq<string>)
    ensures forall x :: x in Selected(m, ls) <==> x in ls && Flag(m, x)
  {
    if ls != [] {
      SelectedMembers(m, ls[1..]);
      assert forall x :: x in ls <==> x == ls[0] || x in ls[1..];
    }
  }

  /** `convertModeOfCommunicationToArray`: one `push` per set flag. */
  method ConvertModeOfCommunicationToArray(m: ModeOfCommunication) returns (modes: seq<string>)
    ensures modes == Selected(m, Labels)
  {
    modes := [];
    if m.sms { modes := modes + ["SMS"]; }
    if m.post { modes := modes + ["By Post"]; }
    if m.email { modes := modes + ["Email"]; }
    if m.whatsapp { modes := modes + ["WhatsApp"]; }
    UnfoldSelected(m);
  }

  lemma UnfoldSelected(m: ModeOfCommunication)
    ensures Selected(m, Labels) ==
      (if m.sms then ["SMS"] else []) + (if m.post then ["By Post"] else [])
      + (if m.email then ["Email"] else []) + (if m.whatsapp then ["WhatsApp"] else [])
  {
    var l1, l2, l3 := ["By Post", "Email", "WhatsApp"], ["Email", "WhatsApp"], ["WhatsApp"];
    assert Labels[1..] == l1 && l1[1..] == l2 && l2[1..] == l3 && l3[1..] == [];
    assert Selected(m, l3) == (if m.whatsapp then ["WhatsApp"] else []);
    assert Selected(m, l2) == (if m.email then ["Email"] else []) + Selected(m, l3);
    assert Selected(m, l1) == (if m.post then ["By Post"] else []) + Selected(m, l2);
  }

  /** `getModeOfCommunicationDisplay`: [] without a record or flags, else the same list as the conversion. */
  method GetModeOfCommunicationDisplay(record: Option<RecordData>) returns (modes: seq<string>)
    ensures record.None? || record.value.modeOfCommunication.None? ==> modes == []
    ensures record.Some? && record.value.modeOfCommunication.Some? ==>
      modes == Selected(record.value.modeOfCommunication.value, Labels)
  {
    modes := [];
    if record.None? || record.value.modeOfCommunication.None? {
      return;
    }
    var m := record.value.modeOfCommunication.value;
    if m.sms { modes := modes + ["SMS"]; }
    if m.post { modes := modes + ["By Post"]; }
    if m.email { modes := modes + ["Email"]; }
    if m.whatsapp { modes := modes + ["WhatsApp"]; }
    UnfoldSelected(m);
  }

  /** `convertModeOfCommunicationToObject`: a flag per label, set when the label occurs. */
  function ConvertModeOfCommunicationToObject(modes: seq<string>): (m: ModeOfCommunication)
    ensures forall x :: x in Labels ==> (Flag(m, x) <==> x in modes)
  {
    ModeOfCommunication("SMS" in modes, "By Post" in modes, "Email" in modes, "WhatsApp" in modes)
  }

  /** Object to array and back gives the same flags. */
  lemma ObjectRoundTrip(m: ModeOfCommunication)
    ensures ConvertModeOfCommunicationToObject(Selected(m, Labels)) == m
  {
    UnfoldSelected(m);
  }

  /** Array to object and back keeps the known labels, once each, in the canonical order. */
  lemma ArrayRoundTrip(modes: seq<string>)
    ensures var r := Selected(ConvertModeOfCommunicationToObject(modes), Labels);
      (forall x :: x in r <==> x in Labels && x in modes)
      && (forall i, j :: 0 <= i < j < |r| ==> r[i] != r[j])
  {
    var m := ConvertModeOfCommunicationToObject(modes);
    SelectedMembers(m, Labels);
    UnfoldSelected(m);
  }

  /** The list is duplicate-free and canonical: a list already in that form comes back unchanged. */
  lemma CanonicalListsAreFixed(m: ModeOfCommunication)
    ensures var xs := Selected(m, Labels);
      Selected(ConvertModeOfCommunicationToObject(xs), Labels) == xs
      && forall i, j :: 0 <= i < j < |xs| ==> xs[i] != xs[j]
  {
    ObjectRoundTrip(m);
    UnfoldSelected(m);
  }

  /** The extension predicates, each against its list. */
  predicate IsImageFile(table: FileExtensions, filename: string) { AttachmentHelpers.GetFileExtension(filename) in table.images }
  predicate IsPdfFile(table: FileExtensions, filename: string) { AttachmentHelpers.GetFileExtension(filename) in table.pdf }
  predicate IsWordFile(table: FileExtensions, filename: string) { AttachmentHelpers.GetFileExtension(filename) in table.word }
  predicate IsExcelFile(table: FileExtensions, filename: string) { AttachmentHelpers.GetFileExtension(filename) in table.excel }
  predicate IsTextFile(table: FileExtensions, filename: string) { AttachmentHelpers.GetFileExtension(filename) in table.text }

  /** A name without a '.' has the empty extension, so it is classified only by lists holding "". */
  lemma NoDotNoExtension(table: FileExtensions, filename: string)
    requires '.' !in filename && "" !in table.images && "" !in table.pdf
    ensures !IsImageFile(table, filename) && !IsPdfFile(table, filename)
  {
  }
}
