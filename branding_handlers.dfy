/**
 * The branding handlers (internal/controllers/webserver/handlers/branding.go):
 * which colour of the form wins, the text and login-page forms, logo
 * uploads with their MIME acceptance rule, and the data URLs uploads are
 * stored as (section 3 of RFC 2397, with base64 per section 4 of RFC 4648).
 *
 * http.DetectContentType is not modelled: the MIME type it sniffs from an
 * upload is part of the upload. Reading the uploaded file is not modelled
 * either: an upload is its name, its bytes and that sniffed type.
 */
module BrandingHandlers {
  import opened Wrappers
  import opened Text
  import opened Forms
  import Base64
  import opened BrandingModel

  /** An uploaded file as the handlers see it after reading it. */
  datatype Upload = Upload(filename: string, data: seq<Base64.byte>, sniffed: string)

  /** Why a branding request is answered with an error message. */
  datatype HandlerError = NoFileSelected | InvalidImage | StoreError(error: BrandingError)

  /** A store error as the handler reports it. */
  function Lifted(e: Option<BrandingError>): Option<HandlerError> {
    match e
    case Some(error) => Some(StoreError(error))
    case None => None
  }

  /** A data URL taken apart: its media type and its decoded payload. */
  datatype DataUrlParts = DataUrlParts(mime: string, data: seq<Base64.byte>)

  // ---------------------------------------------------------------------------
  // Colours (PostBrandingColors)
  // ---------------------------------------------------------------------------

  /** The colour a form submits: the text input when it is non-empty, the picker otherwise. */
  function ChosenColour(form: Form, pickerKey: string, textKey: string): (c: string)
    ensures FormValue(form, textKey) != "" ==> c == FormValue(form, textKey)
    ensures FormValue(form, textKey) == "" ==> c == FormValue(form, pickerKey)
  {
    if FormValue(form, textKey) != "" then FormValue(form, textKey) else FormValue(form, pickerKey)
  }

  /** PostBrandingColors: pick each colour, then UpdateColors. */
  method PostBrandingColors(form: Form, store: BrandingStore, newId: int)
    modifies store
    ensures store.record == Some(Recolored(OrDefault(old(store.record), newId),
      ChosenColour(form, "primary_color", "primary_color_text"),
      ChosenColour(form, "secondary_color", "secondary_color_text"),
      ChosenColour(form, "accent_color", "accent_color_text")))
  {
    var primary := FormValue(form, "primary_color");
    var secondary := FormValue(form, "secondary_color");
    var accent := FormValue(form, "accent_color");
    if FormValue(form, "primary_color_text") != "" {
      primary := FormValue(form, "primary_color_text");
    }
    if FormValue(form, "secondary_color_text") != "" {
      secondary := FormValue(form, "secondary_color_text");
    }
    if FormValue(form, "accent_color_text") != "" {
      accent := FormValue(form, "accent_color_text");
    }
    store.UpdateColors(primary, secondary, accent, newId);
  }

  /**
   * A colour whose picker and text input are both empty keeps its stored
   * value, whatever the other two colours do; a non-empty text input is
   * stored even when the picker holds another colour.
   */
  lemma ColourFormPrecedence(stored: Branding, form: Form, pickerKey: string, textKey: string, p: string, s: string)
    ensures FormValue(form, pickerKey) == "" && FormValue(form, textKey) == "" ==>
      Recolored(stored, p, s, ChosenColour(form, pickerKey, textKey)).accentColor == stored.accentColor
    ensures FormValue(form, textKey) != "" ==>
      Recolored(stored, ChosenColour(form, pickerKey, textKey), s, p).primaryColor == FormValue(form, textKey)
  {
  }

  // ---------------------------------------------------------------------------
  // Text settings (PostBrandingText)
  // ---------------------------------------------------------------------------

  /** The fetched record with the text form's six fields and the powered-by checkbox written into it. */
  function TextEdited(b: Branding, form: Form): Branding {
    b.(productName := FormValue(form, "product_name"),
       supportEmail := FormValue(form, "support_email"),
       supportURL := FormValue(form, "support_url"),
       termsURL := FormValue(form, "terms_url"),
       privacyURL := FormValue(form, "privacy_url"),
       footerText := FormValue(form, "footer_text"),
       showPoweredBy := FormValue(form, "show_powered_by") == "on")
  }

  /** PostBrandingText: fetch or create the record, write the form into it, save it. */
  method PostBrandingText(form: Form, store: BrandingStore, newId: int) returns (err: Option<HandlerError>)
    modifies store
    ensures err == None
    ensures store.record == Some(Merged(OrDefault(old(store.record), newId), TextEdited(OrDefault(old(store.record), newId), form)))
  {
    var b := store.GetOrCreateBranding(newId);
    b := b.(productName := FormValue(form, "product_name"));
    b := b.(supportEmail := FormValue(form, "support_email"));
    b := b.(supportURL := FormValue(form, "support_url"));
    b := b.(termsURL := FormValue(form, "terms_url"));
    b := b.(privacyURL := FormValue(form, "privacy_url"));
    b := b.(footerText := FormValue(form, "footer_text"));
    b := b.(showPoweredBy := FormValue(form, "show_powered_by") == "on");
    var e := store.UpdateBranding(b);
    err := Lifted(e);
  }

  /**
   * What the text form stores: the powered-by notice is shown iff the
   * checkbox value is exactly "on"; support e-mail, support URL, terms,
   * privacy and footer become the submitted values ("" clears them); an
   * empty product name keeps the stored one; nothing else changes.
   */
  lemma TextFormEffect(stored: Branding, form: Form)
    ensures var r := Merged(stored, TextEdited(stored, form));
      (r.showPoweredBy <==> FormValue(form, "show_powered_by") == "on") &&
      r.supportEmail == FormValue(form, "support_email") &&
      r.supportURL == FormValue(form, "support_url") &&
      r.termsURL == FormValue(form, "terms_url") &&
      r.privacyURL == FormValue(form, "privacy_url") &&
      r.footerText == FormValue(form, "footer_text") &&
      r.productName == (if FormValue(form, "product_name") != "" then FormValue(form, "product_name") else stored.productName) &&
      r.(productName := stored.productName, supportEmail := stored.supportEmail, supportURL := stored.supportURL,
         termsURL := stored.termsURL, privacyURL := stored.privacyURL, footerText := stored.footerText,
         showPoweredBy := stored.showPoweredBy) == stored
  {
  }

  // ---------------------------------------------------------------------------
  // Data URLs
  // ---------------------------------------------------------------------------

  /** The stored form of an uploaded image: "data:" + type + ";base64," + the base64 of the bytes. */
  function DataUrl(mime: string, data: seq<Base64.byte>): string {
    "data:" + mime + ";base64," + Base64.Encode(data)
  }

  /** Takes a base64 data URL apart: the media type up to the first ';', then ";base64," and the payload. */
  function ParseDataUrl(s: string): Option<DataUrlParts> {
    if !HasPrefix(s, "data:") then None
    else
      var rest := s[5..];
      var k := IndexOf(rest, ';');
      if HasPrefix(rest[k..], ";base64,") then
        match Base64.Decode(rest[k + 8..])
        case Some(d) => Some(DataUrlParts(rest[..k], d))
        case None => None
      else None
  }

  /** After "data:", the first ';' ends the media type when the type has none. */
  lemma SplitAfterMediaType(mime: string, e: string)
    requires ';' !in mime
    ensures var rest := mime + ";base64," + e;
      IndexOf(rest, ';') == |mime| && rest[..|mime|] == mime &&
      HasPrefix(rest[|mime|..], ";base64,") && rest[|mime| + 8..] == e
  {
    var rest := mime + ";base64," + e;
    assert forall i :: 0 <= i < |mime| ==> rest[i] == mime[i];
    assert rest[|mime|] == ';';
    assert rest[|mime|..] == ";base64," + e;
  }

  /** A data URL gives back the media type and the bytes it was built from, when the type has no ';'. */
  lemma DataUrlRoundTrip(mime: string, data: seq<Base64.byte>)
    requires ';' !in mime
    ensures ParseDataUrl(DataUrl(mime, data)) == Some(DataUrlParts(mime, data))
  {
    var e := Base64.Encode(data);
    var s := DataUrl(mime, data);
    assert s == "data:" + (mime + ";base64," + e);
    assert s[5..] == mime + ";base64," + e;
    SplitAfterMediaType(mime, e);
    Base64.DecodeEncode(data);
  }

  // ---------------------------------------------------------------------------
  // Logos (handleLogoUpload and the DELETE handlers)
  // ---------------------------------------------------------------------------

  /** The SVG media type an upload whose name ends in ".svg" is stored under. */
  const SvgMime := "image/svg+xml"

  /**
   * The media type a logo is stored under: the sniffed one when it is an
   * image type; the SVG type when the filename ends in ".svg" in any
   * letter case; otherwise the upload is refused.
   */
  function AcceptedLogoMime(sniffed: string, filename: string): (r: Option<string>)
    ensures r.Some? <==> HasPrefix(sniffed, "image/") || HasSuffix(Lower(filename), ".svg")
    ensures HasPrefix(sniffed, "image/") ==> r == Some(sniffed)
    ensures !HasPrefix(sniffed, "image/") && r.Some? ==> r.value == SvgMime
    ensures r.Some? ==> HasPrefix(r.value, "image/")
  {
    if HasPrefix(sniffed, "image/") then Some(sniffed)
    else if HasSuffix(Lower(filename), ".svg") then Some(SvgMime)
    else None
  }

  /** ASCII lower-casing is idempotent. */
  lemma LowerIdempotent(s: string)
    ensures Lower(Lower(s)) == Lower(s)
  {
    var l := Lower(s);
    assert forall i :: 0 <= i < |l| ==> Lower(l)[i] == l[i];
  }

  /** The logo rule looks at the filename only up to letter case. */
  lemma LogoRuleIgnoresFilenameCase(sniffed: string, filename: string)
    ensures AcceptedLogoMime(sniffed, Lower(filename)) == AcceptedLogoMime(sniffed, filename)
  {
    LowerIdempotent(filename);
  }

  /**
   * Every data URL a logo upload stores is an image data URL that gives back
   * the uploaded bytes. The image types http.DetectContentType reports carry
   * no parameters; an SVG upload, sniffed as a text type with a charset, is
   * stored under SvgMime.
   */
  lemma StoredLogoDecodes(sniffed: string, filename: string, data: seq<Base64.byte>)
    requires AcceptedLogoMime(sniffed, filename).Some?
    requires HasPrefix(sniffed, "image/") ==> ';' !in sniffed
    ensures var m := AcceptedLogoMime(sniffed, filename).value;
      ParseDataUrl(DataUrl(m, data)) == Some(DataUrlParts(m, data)) && HasPrefix(m, "image/")
  {
    var m := AcceptedLogoMime(sniffed, filename).value;
    if !HasPrefix(sniffed, "image/") {
      assert m == SvgMime;
      assert ';' !in SvgMime;
    }
    DataUrlRoundTrip(m, data);
  }

  /** The logo column a handler's logoType names ("light", "dark", "small"), or none. */
  function SlotOf(logoType: string): Option<LogoSlot> {
    if logoType == "light" then Some(Light)
    else if logoType == "dark" then Some(Dark)
    else if logoType == "small" then Some(Small)
    else None
  }

  /**
   * handleLogoUpload: no file is NoFileSelected; a file that is neither an
   * image nor named *.svg is InvalidImage; an accepted file is saved as a
   * data URL into the column logoType names. A logoType naming no column
   * saves nothing and reports no error.
   */
  method HandleLogoUpload(upload: Option<Upload>, logoType: string, store: BrandingStore, newId: int)
    returns (err: Option<HandlerError>)
    modifies store
    ensures upload.None? ==> err == Some(NoFileSelected) && store.record == old(store.record)
    ensures upload.Some? && AcceptedLogoMime(upload.value.sniffed, upload.value.filename).None? ==>
      err == Some(InvalidImage) && store.record == old(store.record)
    ensures upload.Some? && AcceptedLogoMime(upload.value.sniffed, upload.value.filename).Some? ==>
      err == None &&
      store.record == (if SlotOf(logoType).None? then old(store.record)
        else Some(WithLogo(OrDefault(old(store.record), newId), SlotOf(logoType).value,
          DataUrl(AcceptedLogoMime(upload.value.sniffed, upload.value.filename).value, upload.value.data))))
  {
    if upload.None? {
      return Some(NoFileSelected);
    }
    var file := upload.value;
    var mimeType := file.sniffed;
    if !HasPrefix(mimeType, "image/") {
      if HasSuffix(Lower(file.filename), ".svg") {
        mimeType := SvgMime;
      } else {
        return Some(InvalidImage);
      }
    }
    var dataURL := DataUrl(mimeType, file.data);
    err := None;
    match SlotOf(logoType)
    case Some(slot) => store.SaveLogo(slot, dataURL, newId);
    case None =>
  }

  /** DeleteBrandingLogoLight, DeleteBrandingLogoDark, DeleteBrandingLogoSmall: DeleteLogo* with its error passed on. */
  method DeleteBrandingLogo(slot: LogoSlot, store: BrandingStore) returns (err: Option<HandlerError>)
    modifies store
    ensures old(store.record).None? ==> err == Some(StoreError(NotFound)) && store.record == old(store.record)
    ensures old(store.record).Some? ==> err == None && store.record == Some(WithLogo(old(store.record).value, slot, ""))
  {
    var e := store.DeleteLogo(slot);
    err := Lifted(e);
  }

  // ---------------------------------------------------------------------------
  // Login page (PostBrandingLogin, DeleteBrandingLoginBackground)
  // ---------------------------------------------------------------------------

  /**
   * PostBrandingLogin: the welcome text is always replaced by the form's;
   * an uploaded background must be sniffed as an image (no SVG exception)
   * and is stored as a data URL; with no upload the stored background is
   * kept. A refused upload saves nothing, though the default record may
   * already have been created by then.
   */
  method PostBrandingLogin(form: Form, upload: Option<Upload>, store: BrandingStore, newId: int)
    returns (err: Option<HandlerError>)
    modifies store
    ensures upload.Some? && !HasPrefix(upload.value.sniffed, "image/") ==>
      err == Some(InvalidImage) && store.record == Some(OrDefault(old(store.record), newId))
    ensures !(upload.Some? && !HasPrefix(upload.value.sniffed, "image/")) ==>
      err == None &&
      store.record == Some(OrDefault(old(store.record), newId).(
        loginWelcomeText := FormValue(form, "login_welcome_text"),
        loginBackgroundImage :=
          if upload.Some? then DataUrl(upload.value.sniffed, upload.value.data)
          else OrDefault(old(store.record), newId).loginBackgroundImage))
  {
    var b := store.GetOrCreateBranding(newId);
    b := b.(loginWelcomeText := FormValue(form, "login_welcome_text"));
    if upload.Some? {
      var file := upload.value;
      if !HasPrefix(file.sniffed, "image/") {
        return Some(InvalidImage);
      }
      b := b.(loginBackgroundImage := DataUrl(file.sniffed, file.data));
    }
    ghost var fetched := store.record.value;
    MergedStoresEditIff(fetched, b);
    var e := store.UpdateBranding(b);
    err := Lifted(e);
  }

  /** DeleteBrandingLoginBackground: empty the background of the stored record and save it; NotFound when there is no record. */
  method DeleteBrandingLoginBackground(store: BrandingStore) returns (err: Option<HandlerError>)
    modifies store
    ensures old(store.record).None? ==> err == Some(StoreError(NotFound)) && store.record == old(store.record)
    ensures old(store.record).Some? ==>
      err == None && store.record == Some(old(store.record).value.(loginBackgroundImage := ""))
  {
    var found := store.GetBranding();
    if found.Err? {
      return Some(StoreError(found.error));
    }
    var b := found.value.(loginBackgroundImage := "");
    MergedStoresEditIff(found.value, b);
    var e := store.UpdateBranding(b);
    err := Lifted(e);
  }
}
