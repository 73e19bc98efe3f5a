/**
 * Attachment helpers: file-extension extraction and classification, the
 * conversion of attachments to their display form, and the download
 * handlers, which are modelled by the sequence of `onDownload` calls they
 * make.
 */
module AttachmentHelpers {
  import opened Wrappers
  import opened Text

  /** `getFileExtension`: the lower-cased text after the last '.', or "" when there is none. */
  function GetFileExtension(filename: string): (ext: string)
    ensures '.' !in filename ==> ext == ""
    ensures '.' in filename ==> exists i :: (0 <= i < |filename| && filename[i] == '.'
      && '.' !in filename[i + 1..] && ext == Lower(filename[i + 1..]))
    ensures '.' !in ext
  {
    var idx := LastIndexOf(filename, '.');
    if idx == -1 then ""
    else
      var ext := Lower(filename[idx + 1..]);
      assert forall k :: 0 <= k < |ext| ==> ext[k] == ToLowerChar(filename[idx + 1..][k]);
      ext
  }

  /** The extension of "base.ext" is the lower-cased ext, whatever the base holds. */
  lemma ExtensionOfName(base: string, ext: string)
    requires '.' !in ext
    ensures GetFileExtension(base + "." + ext) == Lower(ext)
  {
    var s := base + "." + ext;
    assert s[|base|] == '.';
    assert s[|base| + 1..] == ext;
    assert LastIndexOf(s, '.') == |base|;
  }

  const ImageExtensions: seq<string> := ["jpg", "jpeg", "png", "gif", "bmp", "svg", "webp"]
  const DocumentExtensions: seq<string> := ["pdf", "doc", "docx", "rtf", "txt"]
  const SpreadsheetExtensions: seq<string> := ["xls", "xlsx", "csv"]

  predicate IsImageFile(fileName: string) { GetFileExtension(fileName) in ImageExtensions }
  predicate IsDocumentFile(fileName: string) { GetFileExtension(fileName) in DocumentExtensions }
  predicate IsSpreadsheetFile(fileName: string) { GetFileExtension(fileName) in SpreadsheetExtensions }

  /** The three extension lists share no entry. */
  lemma ExtensionListsDisjoint()
    ensures forall e :: e in ImageExtensions ==> e !in DocumentExtensions && e !in SpreadsheetExtensions
    ensures forall e :: e in DocumentExtensions ==> e !in SpreadsheetExtensions
  {
  }

  /** `getFileTypeCategory`. */
  function GetFileTypeCategory(fileName: string): (c: string)
    ensures c == "Image" <==> IsImageFile(fileName)
    ensures c == "Document" <==> IsDocumentFile(fileName)
    ensures c == "Spreadsheet" <==> IsSpreadsheetFile(fileName)
    ensures c in {"Image", "Document", "Spreadsheet", "File"}
  {
    ExtensionListsDisjoint();
    if IsImageFile(fileName) then "Image"
    else if IsDocumentFile(fileName) then "Document"
    else if IsSpreadsheetFile(fileName) then "Spreadsheet"
    else "File"
  }

  /** Lower-casing forgets an earlier upper-casing. */
  lemma LowerUpper(s: string)
    ensures Lower(Upper(s)) == Lower(s)
  {
    forall k | 0 <= k < |s| ensures Lower(Upper(s))[k] == Lower(s)[k] {
      assert Upper(s)[k] == ToUpperChar(s[k]);
    }
  }

  /** Classification ignores the case of the extension: "photo.JPG" is an image like "photo.jpg". */
  lemma CategoryIgnoresCase(base: string, ext: string)
    requires '.' !in ext
    ensures GetFileTypeCategory(base + "." + Upper(ext)) == GetFileTypeCategory(base + "." + ext)
    ensures Lower(ext) in ImageExtensions ==> IsImageFile(base + "." + Upper(ext))
  {
    assert '.' !in Upper(ext) by {
      forall k | 0 <= k < |ext| ensures Upper(ext)[k] != '.' {
        assert ext[k] != '.';
      }
    }
    ExtensionOfName(base, ext);
    ExtensionOfName(base, Upper(ext));
    LowerUpper(ext);
  }

  /** The fields of an `InvestigationAttachment` the conversion reads; `fileName` of `file` is `file.name`. */
  datatype InvestigationAttachment = InvestigationAttachment(
    title: Option<string>, fileName: Option<string>, fileNameOfFile: Option<string>,
    path: Option<string>, url: Option<string>, presignedUrl: Option<string>)

  /** The display fields that do not depend on floating point or randomness. */
  datatype DisplayData = DisplayData(name: string, fileType: string, fileName: string, fileTitle: Option<string>, url: Option<string>)

  /** `attachment.title || attachment.fileName || attachment.file?.name`. */
  function NameSource(a: InvestigationAttachment): Option<string> {
    OrElse(OrElse(a.title, a.fileName), a.fileNameOfFile)
  }

  /** The display name: title, else file name, else the file's name, else "Untitled". */
  function DisplayName(a: InvestigationAttachment): (n: string)
    ensures Truthy(a.title) ==> n == a.title.value
    ensures !Truthy(a.title) && Truthy(a.fileName) ==> n == a.fileName.value
    ensures !Truthy(a.title) && !Truthy(a.fileName) && Truthy(a.fileNameOfFile) ==> n == a.fileNameOfFile.value
    ensures !Truthy(a.title) && !Truthy(a.fileName) && !Truthy(a.fileNameOfFile) ==> n == "Untitled"
    ensures n != ""
  {
    OrDefault(NameSource(a), "Untitled")
  }

  /**
   * One attachment's display entry: its name, its type taken from the name the
   * download lookup compares, the file name with its own fallback order, the
   * title as given, and the first truthy of path, url and presigned url.
   */
  function ToDisplay(a: InvestigationAttachment): (d: DisplayData)
    ensures d.name == DisplayName(a)
    ensures d.fileType == GetFileExtension(MatchName(a))
    ensures Truthy(a.fileName) ==> d.fileName == a.fileName.value
    ensures !Truthy(a.fileName) && Truthy(a.fileNameOfFile) ==> d.fileName == a.fileNameOfFile.value
    ensures !Truthy(a.fileName) && !Truthy(a.fileNameOfFile) && Truthy(a.title) ==> d.fileName == a.title.value
    ensures !Truthy(a.fileName) && !Truthy(a.fileNameOfFile) && !Truthy(a.title) ==> d.fileName == "Unknown file"
    ensures d.fileName != ""
    ensures d.fileTitle == a.title
    ensures Truthy(a.path) ==> d.url == a.path
    ensures !Truthy(a.path) && Truthy(a.url) ==> d.url == a.url
    ensures !Truthy(a.path) && !Truthy(a.url) ==> d.url == a.presignedUrl
  {
    DisplayData(
      DisplayName(a),
      GetFileExtension(OrDefault(NameSource(a), "")),
      OrDefault(OrElse(OrElse(a.fileName, a.fileNameOfFile), a.title), "Unknown file"),
      a.title,
      OrElse(OrElse(a.path, a.url), a.presignedUrl))
  }

  /** `convertAttachmentsForDisplay`: [] for a non-array, else one entry per attachment in order. */
  function ConvertAttachmentsForDisplay(attachments: Option<seq<InvestigationAttachment>>): (d: seq<DisplayData>)
    ensures attachments.None? ==> d == []
    ensures attachments.Some? ==> (|d| == |attachments.value|
      && forall i :: 0 <= i < |d| ==> (d[i].name == DisplayName(attachments.value[i])
           && d[i].fileType == GetFileExtension(MatchName(attachments.value[i]))
           && d[i].fileTitle == attachments.value[i].title))
  {
    if attachments.None? then []
    else seq(|attachments.value|, i requires 0 <= i < |attachments.value| => ToDisplay(attachments.value[i]))
  }

  /** The name `handleDownloadFromDisplay` compares: title, file name, the file's name, else "". */
  function MatchName(a: InvestigationAttachment): string {
    OrDefault(NameSource(a), "")
  }

  /**
   * A named attachment's displayed type is the extension of its displayed name;
   * a nameless one is shown as "Untitled" with no type at all.
   */
  lemma TypeOfDisplayedName(a: InvestigationAttachment)
    ensures Truthy(NameSource(a)) ==> ToDisplay(a).fileType == GetFileExtension(ToDisplay(a).name)
    ensures !Truthy(NameSource(a)) ==> ToDisplay(a).name == "Untitled" && ToDisplay(a).fileType == ""
  {
    if !Truthy(NameSource(a)) {
      assert MatchName(a) == "";
      assert '.' !in MatchName(a);
    }
  }

  /** `handleDownloadFromDisplay`: the attachment passed to `onDownload`, if any (the first whose match name equals). */
  function HandleDownloadFromDisplay(displayName: string, originals: Option<seq<InvestigationAttachment>>): (call: Option<InvestigationAttachment>)
    ensures call.Some? <==> originals.Some? && exists i :: 0 <= i < |originals.value| && MatchName(originals.value[i]) == displayName
    ensures call.Some? ==> exists i :: (0 <= i < |originals.value| && call.value == originals.value[i]
      && MatchName(originals.value[i]) == displayName
      && forall j :: 0 <= j < i ==> MatchName(originals.value[j]) != displayName)
  {
    if originals.None? then None else FindByName(displayName, originals.value, MatchName)
  }

  function FindByName(displayName: string, xs: seq<InvestigationAttachment>, nameOf: InvestigationAttachment -> string): (r: Option<InvestigationAttachment>)
    ensures r.Some? <==> exists i :: 0 <= i < |xs| && nameOf(xs[i]) == displayName
    ensures r.Some? ==> exists i :: (0 <= i < |xs| && r.value == xs[i] && nameOf(xs[i]) == displayName
      && forall j :: 0 <= j < i ==> nameOf(xs[j]) != displayName)
  {
    if xs == [] then None
    else if nameOf(xs[0]) == displayName then Some(xs[0])
    else
      var r := FindByName(displayName, xs[1..], nameOf);
      assert forall i :: 1 <= i < |xs| ==> xs[i] == xs[1..][i - 1];
      r
  }

  /**
   * An attachment without any name is displayed as "Untitled", but clicking
   * it downloads nothing: its match name is "".
   */
  lemma UntitledNotDownloadable()
    ensures var a := InvestigationAttachment(None, None, None, Some("/files/1"), None, None);
      ConvertAttachmentsForDisplay(Some([a]))[0].name == "Untitled"
      && HandleDownloadFromDisplay(ConvertAttachmentsForDisplay(Some([a]))[0].name, Some([a])).None?
  {
    var a := InvestigationAttachment(None, None, None, Some("/files/1"), None, None);
    assert MatchName(a) == "";
    assert [a][0] == a;
  }

  /** The download lookup matched against the same name the display shows. */
  function HandleDownloadFromDisplayByDisplayName(displayName: string, originals: Option<seq<InvestigationAttachment>>): (call: Option<InvestigationAttachment>)
    ensures call.Some? ==> DisplayName(call.value) == displayName
  {
    if originals.None? then None else FindByName(displayName, originals.value, DisplayName)
  }

  /** With matching by display name, every displayed entry downloads an attachment shown under that name. */
  lemma EveryDisplayedEntryDownloads(originals: seq<InvestigationAttachment>, i: int)
    requires 0 <= i < |originals|
    ensures var d := ConvertAttachmentsForDisplay(Some(originals));
      HandleDownloadFromDisplayByDisplayName(d[i].name, Some(originals)).Some?
  {
  }

  /** `handleDownloadAll`: one `onDownload` call per attachment, in order; none for a non-array. */
  method HandleDownloadAll(attachments: Option<seq<InvestigationAttachment>>) returns (calls: seq<InvestigationAttachment>)
    ensures attachments.None? ==> calls == []
    ensures attachments.Some? ==> calls == attachments.value
  {
    calls := [];
    if attachments.Some? {
      var xs := attachments.value;
      var i := 0;
      while i < |xs|
        invariant 0 <= i <= |xs|
        invariant calls == xs[..i]
      {
        calls := calls + [xs[i]];
        i := i + 1;
      }
      assert xs[..|xs|] == xs;
    }
  }

  datatype Icon = Icon(icon: string, color: string)

  const FileIcon: string := "FILE_ICON"
  const GrayColor: string := "GRAY_COLOR_ICON"

  /**
   * `getFileIcon`: the default file icon in gray for an empty name; otherwise
   * the entry for the extension in the extension table, or its default entry.
   */
  function GetFileIcon(fileName: string, extensionIcons: map<string, Icon>, defaultIcon: Icon): (r: Icon)
    ensures fileName == "" ==> r == Icon(FileIcon, GrayColor)
    ensures fileName != "" && GetFileExtension(fileName) !in extensionIcons ==> r == defaultIcon
    ensures fileName != "" && GetFileExtension(fileName) in extensionIcons ==> r == extensionIcons[GetFileExtension(fileName)]
  {
    if fileName == "" then Icon(FileIcon, GrayColor)
    else
      var ext := GetFileExtension(fileName);
      if ext in extensionIcons then extensionIcons[ext] else defaultIcon
  }
}
