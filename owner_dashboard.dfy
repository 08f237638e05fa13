/**
 * The business owner's dashboard (frontend/src/pages/BusinessOwnerDashboard.js):
 * the required-field check before a new business is registered, the text
 * forms in which notices and the menu are edited, the gallery bookkeeping of
 * the edit dialog, and the multipart form each submission sends.
 */
module OwnerDashboard {
  import opened Wrappers
  import opened Strings
  import opened Seqs
  import opened Days

  // ---------------------------------------------------------------------
  // Notices and menu as text
  // ---------------------------------------------------------------------

  /** `lines.map((l) => l.trim())`. */
  function TrimLines(lines: seq<string>): (r: seq<string>)
    ensures |r| == |lines|
  {
    seq(|lines|, i requires 0 <= i < |lines| => Trim(lines[i]))
  }

  /** The test `(l) => l`: a string is truthy when it is not empty. */
  function IsFilled(): string -> bool
  {
    (s: string) => s != ""
  }

  /**
   * `text.split('\n').map(trim).filter(l => l)`: the lines of a text area,
   * trimmed, with the blank ones dropped. Both the notices and the menu
   * text are read this way.
   */
  function NonEmptyLines(text: string): seq<string>
  {
    Filter(TrimLines(Split(text, '\n')), IsFilled())
  }

  /** A line a text area gives back unchanged: non-empty, trimmed, and one line. */
  predicate IsCleanLine(s: string)
  {
    s != "" && IsTrimmed(s) && '\n' !in s
  }

  predicate AllClean(lines: seq<string>)
  {
    forall i :: 0 <= i < |lines| ==> IsCleanLine(lines[i])
  }

  /** A character the untrimmed string lacks is not in its trimmed form either. */
  lemma TrimKeepsOut(s: string, c: char)
    requires c !in s
    ensures c !in Trim(s)
  {
    var t := TrimStart(s);
    var r := TrimEnd(t);
    forall i | 0 <= i < |r| ensures r[i] != c {
      assert r[i] == t[i];
      assert t[i] == s[|s| - |t| + i];
    }
  }

  /** Every line read from a text area is non-empty, trimmed and free of newlines. */
  lemma NonEmptyLinesAreClean(text: string)
    ensures AllClean(NonEmptyLines(text))
  {
    var pieces := Split(text, '\n');
    var trimmed := TrimLines(pieces);
    forall i | 0 <= i < |NonEmptyLines(text)| ensures IsCleanLine(NonEmptyLines(text)[i]) {
      var line := NonEmptyLines(text)[i];
      assert line in trimmed && IsFilled()(line);
      var j :| 0 <= j < |trimmed| && trimmed[j] == line;
      TrimFixesTrimmed(pieces[j]);
      TrimKeepsOut(pieces[j], '\n');
    }
  }

  /**
   * Lines joined with `\n` and read back are recovered exactly when each is
   * non-empty, already trimmed and free of newlines.
   */
  lemma LinesRoundTrip(lines: seq<string>)
    requires AllClean(lines)
    ensures NonEmptyLines(Join(lines, "\n")) == lines
  {
    if lines == [] {
      SplitWithoutSeparator("", '\n');
      assert TrimLines([""]) == [""];
      assert Filter([""], IsFilled()) == [];
    } else {
      assert "\n" == ['\n'];
      SplitJoin(lines, '\n');
      forall i | 0 <= i < |lines| ensures TrimLines(lines)[i] == lines[i] {
        TrimFixesTrimmed(lines[i]);
      }
      assert TrimLines(lines) == lines;
      FilterKeepsAll(lines, IsFilled());
    }
  }

  /**
   * The notices text area's initial value in `handleSelectRestaurant`: the
   * stored notices joined by newlines, or empty when there are none.
   */
  function NoticesText(notices: Option<seq<string>>): string
  {
    if notices.Some? && |notices.value| > 0 then Join(notices.value, "\n") else ""
  }

  /**
   * Loading stored notices into the dialog and saving it unchanged sends the
   * same notices, provided each is non-empty, trimmed and one line.
   */
  lemma NoticesRoundTrip(notices: seq<string>)
    requires AllClean(notices)
    ensures NonEmptyLines(NoticesText(Some(notices))) == notices
  {
    LinesRoundTrip(notices);
  }

  /**
   * Whatever the owner types, the notices sent on the first save are sent
   * again, unchanged, when the dialog is reopened and saved a second time.
   */
  lemma NoticesSaveIsStable(text: string)
    ensures NonEmptyLines(NoticesText(Some(NonEmptyLines(text)))) == NonEmptyLines(text)
  {
    NonEmptyLinesAreClean(text);
    NoticesRoundTrip(NonEmptyLines(text));
  }

  /** A stored menu entry; the price is kept as the text the template renders for it. */
  datatype MenuItem = MenuItem(name: string, price: string)

  /**
   * A menu entry read back from a line: the text before the first `|`, and
   * the text between the first and the second `|` that `parseFloat` is given
   * (`None` for a line without `|`, where `parts[1]` is undefined).
   */
  datatype ParsedItem = ParsedItem(name: string, priceText: Option<string>)

  /** The template `${m.name}|${m.price}`. */
  function MenuLine(m: MenuItem): string
  {
    m.name + "|" + m.price
  }

  function MenuLines(items: seq<MenuItem>): (lines: seq<string>)
    ensures |lines| == |items|
  {
    seq(|items|, i requires 0 <= i < |items| => MenuLine(items[i]))
  }

  /** The menu text area's initial value: one line per entry when the stored menu is an array, else empty. */
  function MenuText(menu: Option<seq<MenuItem>>): string
  {
    if menu.Some? then Join(MenuLines(menu.value), "\n") else ""
  }

  /** `const parts = line.split('|')`, then `parts[0]` and `parts[1]`. */
  function ParseMenuLine(line: string): ParsedItem
  {
    var parts := Split(line, '|');
    ParsedItem(parts[0], if |parts| >= 2 then Some(parts[1]) else None)
  }

  /** `menuItems` of `handleUpdateRestaurant`: one entry per non-blank line. */
  function ParseMenu(text: string): (items: seq<ParsedItem>)
    ensures |items| == |NonEmptyLines(text)|
  {
    var lines := NonEmptyLines(text);
    seq(|lines|, i requires 0 <= i < |lines| => ParseMenuLine(lines[i]))
  }

  /**
   * An entry that survives the text form: neither part holds `|` or a
   * newline, the name does not start with white space and the price does not
   * end with it.
   */
  predicate SurvivesText(m: MenuItem)
  {
    && '|' !in m.name && '\n' !in m.name
    && '|' !in m.price && '\n' !in m.price
    && (m.name == "" || !IsJsSpace(m.name[0]))
    && (m.price == "" || !IsJsSpace(m.price[|m.price| - 1]))
  }

  /** The line of an entry that survives the text form is read back as that entry. */
  lemma MenuLineRoundTrip(m: MenuItem)
    requires SurvivesText(m)
    ensures IsCleanLine(MenuLine(m))
    ensures ParseMenuLine(MenuLine(m)) == ParsedItem(m.name, Some(m.price))
  {
    var line := MenuLine(m);
    assert line == m.name + ['|'] + m.price;
    assert line[|m.name|] == '|';
    assert line[0] == (if m.name == "" then '|' else m.name[0]);
    assert line[|line| - 1] == (if m.price == "" then '|' else m.price[|m.price| - 1]);
    SplitAfterPrefix(m.name, '|', m.price);
    SplitWithoutSeparator(m.price, '|');
  }

  /**
   * Loading a stored menu into the dialog and saving it unchanged sends every
   * entry back with its name and its price text, in order, when each entry
   * survives the text form.
   */
  lemma MenuRoundTrip(items: seq<MenuItem>)
    requires forall i :: 0 <= i < |items| ==> SurvivesText(items[i])
    ensures |ParseMenu(MenuText(Some(items)))| == |items|
    ensures forall i :: 0 <= i < |items| ==>
      ParseMenu(MenuText(Some(items)))[i] == ParsedItem(items[i].name, Some(items[i].price))
  {
    var lines := MenuLines(items);
    forall i | 0 <= i < |lines| ensures IsCleanLine(lines[i]) {
      MenuLineRoundTrip(items[i]);
    }
    LinesRoundTrip(lines);
    forall i | 0 <= i < |items|
      ensures ParseMenu(MenuText(Some(items)))[i] == ParsedItem(items[i].name, Some(items[i].price))
    {
      MenuLineRoundTrip(items[i]);
    }
  }

  // ---------------------------------------------------------------------
  // Multipart form data
  // ---------------------------------------------------------------------

  /**
   * The value of one form-data part. JSON-encoded parts keep the value they
   * encode; `Location` is the encoded map position, whose coordinates are
   * not part of this model; `Upload` is a file, named by its file name.
   */
  datatype Value =
    | Text(text: string)
    | Schedule(hours: WorkingHours)
    | Location
    | NoticeList(notices: seq<string>)
    | MenuList(items: seq<ParsedItem>)
    | UrlList(urls: seq<string>)
    | Upload(file: string)

  /** The form-data keys the dashboard appends. */
  datatype Key =
    | Name | Street | Building | City | State | Pincode | Category | PriceRange
    | WorkingHoursKey | MapLocation | Notices | Menu | Thumbnail | GalleryImages | DeleteImages

  /** The name each key is appended under. */
  function KeyName(k: Key): string
  {
    match k
    case Name => "name"
    case Street => "street"
    case Building => "building"
    case City => "city"
    case State => "state"
    case Pincode => "pincode"
    case Category => "category"
    case PriceRange => "priceRange"
    case WorkingHoursKey => "workingHours"
    case MapLocation => "mapLocation"
    case Notices => "notices"
    case Menu => "menu"
    case Thumbnail => "thumbnail"
    case GalleryImages => "galleryImages"
    case DeleteImages => "deleteImages"
  }

  type Part = (Key, Value)

  /** The keys of the parts, in the order they were appended. */
  function Keys(parts: seq<Part>): (keys: seq<Key>)
    ensures |keys| == |parts|
  {
    seq(|parts|, i requires 0 <= i < |parts| => parts[i].0)
  }

  /** `for (const key in payload) formData.append(key, payload[key])` and the `forEach` over gallery files. */
  method AppendParts(formData: seq<Part>, entries: seq<Part>) returns (result: seq<Part>)
    ensures result == formData + entries
  {
    result := formData;
    var i := 0;
    while i < |entries|
      invariant i <= |entries|
      invariant result == formData + entries[..i]
    {
      result := result + [entries[i]];
      assert entries[..i + 1] == entries[..i] + [entries[i]];
      i := i + 1;
    }
    assert entries[..i] == entries;
  }

  /** `if (thumbnail) formData.append('thumbnail', thumbnail)`. */
  function ThumbnailPart(thumbnail: Option<string>): seq<Part>
  {
    if thumbnail.Some? then [(Thumbnail, Upload(thumbnail.value))] else []
  }

  /** One `galleryImages` part per picked file, in order. */
  function GalleryParts(files: seq<string>): (parts: seq<Part>)
    ensures |parts| == |files|
  {
    seq(|files|, i requires 0 <= i < |files| => (GalleryImages, Upload(files[i])))
  }

  /** `if (imagesToDelete.length > 0) formData.append('deleteImages', JSON.stringify(imagesToDelete))`. */
  function DeletePart(toDelete: seq<string>): seq<Part>
  {
    if |toDelete| > 0 then [(DeleteImages, UrlList(toDelete))] else []
  }

  // ---------------------------------------------------------------------
  // Registering a new business
  // ---------------------------------------------------------------------

  /** The registration dialog's state. `hasMapLocation` is whether a map position is set. */
  datatype NewBusinessForm = NewBusinessForm(
    name: string, street: string, building: string, city: string, state: string,
    pincode: string, category: string, priceRange: string, hasMapLocation: bool,
    openAllDays: bool, sameHoursAllDays: bool, closedDays: seq<string>,
    allDays: Hours, specific: seq<(string, Hours)>, thumbnail: Option<string>)

  const RequiredFieldsError: string := "Please fill in all required fields."

  /**
   * The check before registering: every required field filled in, a map
   * position set, and at least one closed day chosen unless open all days.
   */
  predicate RegistrationComplete(f: NewBusinessForm)
  {
    && f.name != "" && f.street != "" && f.city != "" && f.state != ""
    && f.pincode != "" && f.category != "" && f.priceRange != ""
    && f.hasMapLocation
    && (f.openAllDays || |f.closedDays| > 0)
  }

  /** The keys whose text the check requires to be non-empty. */
  const RequiredKeys: seq<Key> := [Name, Street, City, State, Pincode, Category, PriceRange]

  /** The `payload` object of `handleRegisterBusiness`, in its key order. */
  function RegistrationPayload(f: NewBusinessForm): seq<Part>
  {
    [ (Name, Text(f.name)), (Street, Text(f.street)), (Building, Text(f.building)),
      (City, Text(f.city)), (State, Text(f.state)), (Pincode, Text(f.pincode)),
      (Category, Text(f.category)), (PriceRange, Text(f.priceRange)),
      (WorkingHoursKey, Schedule(WorkingHours(f.openAllDays, f.sameHoursAllDays, Some(f.closedDays),
                                             Some(f.allDays), Some(f.specific)))),
      (MapLocation, Location) ]
  }

  /** What a submission does: set an error and send nothing, or send the form data. */
  datatype Submission = Refused(error: string) | Sent(parts: seq<Part>)

  /** `handleRegisterBusiness` up to the request. */
  method RegisterBusiness(f: NewBusinessForm) returns (out: Submission)
    ensures out.Refused? <==> !RegistrationComplete(f)
    ensures out.Refused? ==> out.error == RequiredFieldsError
    ensures out.Sent? ==> out.parts == RegistrationPayload(f) + ThumbnailPart(f.thumbnail)
  {
    if f.name == "" || f.street == "" || f.city == "" || f.state == "" || f.pincode == "" ||
       f.category == "" || f.priceRange == "" || !f.hasMapLocation ||
       (!f.openAllDays && |f.closedDays| == 0) {
      return Refused(RequiredFieldsError);
    }
    var parts := AppendParts([], RegistrationPayload(f));
    if f.thumbnail.Some? {
      parts := parts + [(Thumbnail, Upload(f.thumbnail.value))];
    }
    out := Sent(parts);
  }

  /**
   * A registration that is sent carries every required field as non-empty
   * text, and its working hours name at least one closed day unless the
   * business is open all days.
   */
  lemma SentRegistrationIsComplete(f: NewBusinessForm, i: nat)
    requires RegistrationComplete(f)
    requires i < |RegistrationPayload(f)|
    ensures RegistrationPayload(f)[i].0 in RequiredKeys ==>
      RegistrationPayload(f)[i].1.Text? && RegistrationPayload(f)[i].1.text != ""
    ensures RegistrationPayload(f)[i].1.Schedule? ==>
      var wh := RegistrationPayload(f)[i].1.hours;
      wh.openAllDays || (wh.closedDays.Some? && |wh.closedDays.value| > 0)
  {
  }

  /** Every refused registration had a required field left empty, or no closed day while not open all days. */
  lemma RefusedRegistrationReason(f: NewBusinessForm)
    requires !RegistrationComplete(f)
    ensures (exists i :: 0 <= i < |RegistrationPayload(f)| && RegistrationPayload(f)[i].0 in RequiredKeys &&
               RegistrationPayload(f)[i].1 == Text(""))
         || !f.hasMapLocation || (!f.openAllDays && f.closedDays == [])
  {
    var p := RegistrationPayload(f);
    if f.name == "" { assert p[0].0 in RequiredKeys && p[0].1 == Text(""); }
    else if f.street == "" { assert p[1].0 in RequiredKeys && p[1].1 == Text(""); }
    else if f.city == "" { assert p[3].0 in RequiredKeys && p[3].1 == Text(""); }
    else if f.state == "" { assert p[4].0 in RequiredKeys && p[4].1 == Text(""); }
    else if f.pincode == "" { assert p[5].0 in RequiredKeys && p[5].1 == Text(""); }
    else if f.category == "" { assert p[6].0 in RequiredKeys && p[6].1 == Text(""); }
    else if f.priceRange == "" { assert p[7].0 in RequiredKeys && p[7].1 == Text(""); }
  }

  // ---------------------------------------------------------------------
  // The edit dialog's gallery
  // ---------------------------------------------------------------------

  /**
   * The gallery state of the edit dialog: the stored images still shown
   * (`existingGalleryImages`), the files picked for upload (`galleryImages`)
   * and the stored images to delete (`imagesToDelete`).
   */
  class GalleryEdit {
    var existing: seq<string>
    var newFiles: seq<string>
    var toDelete: seq<string>
    /** The images as they were loaded when the restaurant was selected. */
    ghost var loaded: seq<string>

    /**
     * Only loaded images are shown, and every loaded image that is no longer
     * shown is scheduled for deletion.
     */
    ghost predicate Valid()
      reads this
    {
      && (forall u :: u in existing ==> u in loaded)
      && (forall u :: u in loaded && u !in existing ==> u in toDelete)
    }

    constructor()
      ensures existing == [] && newFiles == [] && toDelete == [] && loaded == []
      ensures Valid()
    {
      existing := [];
      newFiles := [];
      toDelete := [];
      loaded := [];
    }

    /**
     * The gallery part of `handleSelectRestaurant`: show the stored images
     * (none when the list is absent or empty) and clear both pending lists.
     */
    method Load(galleryImages: Option<seq<string>>)
      modifies this
      ensures existing == (if galleryImages.Some? && |galleryImages.value| > 0 then galleryImages.value else [])
      ensures newFiles == [] && toDelete == [] && loaded == existing
      ensures Valid()
    {
      if galleryImages.Some? && |galleryImages.value| > 0 {
        existing := galleryImages.value;
      } else {
        existing := [];
      }
      newFiles := [];
      toDelete := [];
      loaded := existing;
    }

    /** `handleAddGalleryImages`: the picked files are appended after those already picked. */
    method AddGalleryImages(files: seq<string>)
      requires Valid()
      modifies this
      ensures newFiles == old(newFiles) + files
      ensures existing == old(existing) && toDelete == old(toDelete) && loaded == old(loaded)
      ensures Valid()
    {
      newFiles := newFiles + files;
    }

    /** `handleDeleteGalleryImage`: the image is scheduled for deletion but stays shown. */
    method DeleteGalleryImage(url: string)
      requires Valid()
      modifies this
      ensures toDelete == old(toDelete) + [url]
      ensures existing == old(existing) && newFiles == old(newFiles) && loaded == old(loaded)
      ensures Valid()
    {
      toDelete := toDelete + [url];
    }

    /**
     * `handleDeleteImage`: every copy of the image leaves the shown gallery,
     * the other images keep their order, and the image is scheduled for
     * deletion.
     */
    method DeleteImage(url: string)
      requires Valid()
      modifies this
      ensures existing == Filter(old(existing), IsNot(url))
      ensures url !in existing
      ensures forall u :: u != url ==> (u in existing <==> u in old(existing))
      ensures IsSubsequence(existing, old(existing))
      ensures toDelete == old(toDelete) + [url]
      ensures newFiles == old(newFiles) && loaded == old(loaded)
      ensures Valid()
    {
      FilterIsSubsequence(existing, IsNot(url));
      existing := Filter(existing, IsNot(url));
      toDelete := toDelete + [url];
    }
  }

  // ---------------------------------------------------------------------
  // Saving the edit dialog
  // ---------------------------------------------------------------------

  /** The edit dialog's fields, with the notices and menu as their text areas hold them. */
  datatype EditForm = EditForm(
    name: string, street: string, building: string, city: string, state: string,
    pincode: string, category: string, priceRange: string,
    openAllDays: bool, sameHoursAllDays: bool, closedDays: seq<string>,
    allDays: Hours, specific: seq<(string, Hours)>,
    notices: string, menu: string, thumbnail: Option<string>)

  /**
   * The `payload` object of `handleUpdateRestaurant`, in its key order, with
   * the notices and menu entries read from the text areas.
   */
  function UpdatePayload(f: EditForm, notices: seq<string>, menu: seq<ParsedItem>): seq<Part>
  {
    [ (Name, Text(f.name)), (Street, Text(f.street)), (Building, Text(f.building)),
      (City, Text(f.city)), (State, Text(f.state)), (Pincode, Text(f.pincode)),
      (Category, Text(f.category)), (PriceRange, Text(f.priceRange)),
      (WorkingHoursKey, Schedule(WorkingHours(f.openAllDays, f.sameHoursAllDays, Some(f.closedDays),
                                             Some(f.allDays), Some(f.specific)))),
      (MapLocation, Location),
      (Notices, NoticeList(notices)),
      (Menu, MenuList(menu)) ]
  }

  /** The whole update form: the payload, the thumbnail, the new files, then the deletions. */
  function UpdateForm(f: EditForm, notices: seq<string>, menu: seq<ParsedItem>,
                      newFiles: seq<string>, toDelete: seq<string>): seq<Part>
  {
    UpdatePayload(f, notices, menu) + ThumbnailPart(f.thumbnail) + GalleryParts(newFiles) + DeletePart(toDelete)
  }

  /** The form data of `handleUpdateRestaurant`, built by appending part after part. */
  method BuildUpdateForm(f: EditForm, notices: seq<string>, menu: seq<ParsedItem>,
                         newFiles: seq<string>, toDelete: seq<string>) returns (parts: seq<Part>)
    ensures parts == UpdateForm(f, notices, menu, newFiles, toDelete)
  {
    ghost var head := UpdatePayload(f, notices, menu) + ThumbnailPart(f.thumbnail);
    parts := AppendParts([], UpdatePayload(f, notices, menu));
    assert parts == UpdatePayload(f, notices, menu);
    if f.thumbnail.Some? {
      parts := parts + [(Thumbnail, Upload(f.thumbnail.value))];
    }
    assert parts == head;
    parts := AppendParts(parts, GalleryParts(newFiles));
    if |toDelete| > 0 {
      parts := parts + [(DeleteImages, UrlList(toDelete))];
    }
  }

  /**
   * `handleUpdateRestaurant` up to the request: the notices and the menu are
   * read from their text areas, then the form data is built from the dialog
   * and the gallery state.
   */
  method UpdateRestaurant(f: EditForm, gallery: GalleryEdit) returns (parts: seq<Part>)
    ensures parts == UpdateForm(f, NonEmptyLines(f.notices), ParseMenu(f.menu), gallery.newFiles, gallery.toDelete)
  {
    var notices := NonEmptyLines(f.notices);
    var menu := ParseMenu(f.menu);
    parts := BuildUpdateForm(f, notices, menu, gallery.newFiles, gallery.toDelete);
  }

  /**
   * An update carries a `deleteImages` part exactly when there are images to
   * delete, and then that part lists them all.
   */
  lemma UpdateSendsDeletionsIff(f: EditForm, notices: seq<string>, menu: seq<ParsedItem>,
                                newFiles: seq<string>, toDelete: seq<string>)
    ensures DeleteImages in Keys(UpdateForm(f, notices, menu, newFiles, toDelete)) <==> |toDelete| > 0
    ensures forall i :: (0 <= i < |UpdateForm(f, notices, menu, newFiles, toDelete)| &&
      UpdateForm(f, notices, menu, newFiles, toDelete)[i].0 == DeleteImages) ==>
      UpdateForm(f, notices, menu, newFiles, toDelete)[i].1 == UrlList(toDelete)
  {
    var head := UpdatePayload(f, notices, menu) + ThumbnailPart(f.thumbnail);
    var files := GalleryParts(newFiles);
    var form := UpdateForm(f, notices, menu, newFiles, toDelete);
    assert form == head + files + DeletePart(toDelete);
    forall i | 0 <= i < |head| + |files| ensures form[i].0 != DeleteImages {
      if i < |head| {
        assert form[i] == head[i];
      } else {
        assert form[i] == files[i - |head|];
      }
    }
    if |toDelete| > 0 {
      assert Keys(form)[|head| + |files|] == DeleteImages;
    }
  }

  /**
   * Unlike the registration page, the update always sends both the shared
   * hours and the per-day hours, whatever the flags say, together with the
   * flags and the closed days.
   */
  lemma UpdateCarriesBothHours(f: EditForm, notices: seq<string>, menu: seq<ParsedItem>,
                               newFiles: seq<string>, toDelete: seq<string>)
    ensures var form := UpdateForm(f, notices, menu, newFiles, toDelete);
      && form[8].0 == WorkingHoursKey
      && form[8].1 == Schedule(WorkingHours(f.openAllDays, f.sameHoursAllDays, Some(f.closedDays),
                                            Some(f.allDays), Some(f.specific)))
  {
    var payload := UpdatePayload(f, notices, menu);
    var form := UpdateForm(f, notices, menu, newFiles, toDelete);
    assert form[8] == payload[8];
  }

  /**
   * `toggleEditClosedDay` and `getOpenDaysForEdit` together: when not open
   * all days, toggling a day flips whether it is listed as open and leaves
   * every other day as it was; when open all days, the whole week stays open.
   */
  lemma EditToggleFlipsOneDay(openAllDays: bool, closedDays: seq<string>, day: string, d: string)
    requires d in MondayFirst
    ensures openAllDays ==> OpenDays(openAllDays, Toggle(closedDays, day)) == MondayFirst
    ensures !openAllDays && d == day ==>
      (d in OpenDays(openAllDays, Toggle(closedDays, day)) <==> d !in OpenDays(openAllDays, closedDays))
    ensures !openAllDays && d != day ==>
      (d in OpenDays(openAllDays, Toggle(closedDays, day)) <==> d in OpenDays(openAllDays, closedDays))
  {
    ToggleFlipsOpenDay(closedDays, day, d);
  }
}
