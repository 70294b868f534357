/**
 * The global branding settings (internal/models/branding.go): a single
 * record, created with defaults on first use and updated column by column.
 * An optional column that ent clears reads back as "", so a cleared
 * column is the empty string here.
 */
module BrandingModel {
  import opened Wrappers

  /** The branding record; every text column is optional except the id. */
  datatype Branding = Branding(
    id: int,
    logoLight: string,
    logoDark: string,
    logoSmall: string,
    primaryColor: string,
    secondaryColor: string,
    accentColor: string,
    productName: string,
    supportURL: string,
    supportEmail: string,
    termsURL: string,
    privacyURL: string,
    loginBackgroundImage: string,
    loginWelcomeText: string,
    footerText: string,
    showPoweredBy: bool)

  /** ent's not-found error, the only failure the in-memory table can produce. */
  datatype BrandingError = NotFound

  /** The three logo columns, one per pair of SaveLogo and DeleteLogo operations. */
  datatype LogoSlot = Light | Dark | Small

  /** The record GetOrCreateBranding creates: four columns set, every other column empty. */
  function DefaultBranding(id: int): Branding {
    Branding(id, "", "", "", "#16a34a", "#6d28d9", "", "OpenUEM", "", "", "", "", "", "", "", true)
  }

  /** The record a GetOrCreateBranding call works on: the stored one, or the default created under `newId`. */
  function OrDefault(record: Option<Branding>, newId: int): Branding {
    if record.Some? then record.value else DefaultBranding(newId)
  }

  /** A column that is overwritten by a non-empty value and left alone by "". */
  function Keep(stored: string, given: string): string {
    if given != "" then given else stored
  }

  /**
   * The stored record after UpdateBranding(b): columns that are set when
   * non-empty and cleared when empty end up equal to b's; primary colour,
   * secondary colour and product name keep the stored value when b's is "";
   * ShowPoweredBy is always b's.
   */
  function Merged(stored: Branding, b: Branding): Branding {
    stored.(
      logoLight := b.logoLight,
      logoDark := b.logoDark,
      logoSmall := b.logoSmall,
      primaryColor := Keep(stored.primaryColor, b.primaryColor),
      secondaryColor := Keep(stored.secondaryColor, b.secondaryColor),
      accentColor := b.accentColor,
      productName := Keep(stored.productName, b.productName),
      supportURL := b.supportURL,
      supportEmail := b.supportEmail,
      termsURL := b.termsURL,
      privacyURL := b.privacyURL,
      loginBackgroundImage := b.loginBackgroundImage,
      loginWelcomeText := b.loginWelcomeText,
      footerText := b.footerText,
      showPoweredBy := b.showPoweredBy)
  }

  /** The stored record after UpdateColors: only the colours given non-empty change. */
  function Recolored(stored: Branding, primary: string, secondary: string, accent: string): Branding {
    stored.(
      primaryColor := Keep(stored.primaryColor, primary),
      secondaryColor := Keep(stored.secondaryColor, secondary),
      accentColor := Keep(stored.accentColor, accent))
  }

  function LogoOf(b: Branding, slot: LogoSlot): string {
    match slot
    case Light => b.logoLight
    case Dark => b.logoDark
    case Small => b.logoSmall
  }

  function WithLogo(b: Branding, slot: LogoSlot, v: string): Branding {
    match slot
    case Light => b.(logoLight := v)
    case Dark => b.(logoDark := v)
    case Small => b.(logoSmall := v)
  }

  // ---------------------------------------------------------------------------
  // What the update rules mean
  // ---------------------------------------------------------------------------

  /**
   * Saving back a record as fetched, or with some columns edited, stores
   * exactly that record, unless it empties the primary colour, secondary
   * colour or product name, which UpdateBranding refuses to clear.
   */
  lemma MergedStoresEditIff(stored: Branding, b: Branding)
    ensures Merged(stored, b) == b <==>
      b.id == stored.id &&
      (b.primaryColor == "" ==> stored.primaryColor == "") &&
      (b.secondaryColor == "" ==> stored.secondaryColor == "") &&
      (b.productName == "" ==> stored.productName == "")
  {
  }

  /** Repeating an update changes nothing further. */
  lemma MergedIdempotent(stored: Branding, b: Branding)
    ensures Merged(Merged(stored, b), b) == Merged(stored, b)
  {
  }

  /** Once the primary colour, secondary colour or product name is set, no UpdateBranding empties it again. */
  lemma MergedNeverEmptiesKeptColumns(stored: Branding, b: Branding)
    ensures stored.primaryColor != "" ==> Merged(stored, b).primaryColor != ""
    ensures stored.secondaryColor != "" ==> Merged(stored, b).secondaryColor != ""
    ensures stored.productName != "" ==> Merged(stored, b).productName != ""
  {
  }

  /** The record keeps its id through every update. */
  lemma UpdatesKeepId(stored: Branding, b: Branding, p: string, s: string, a: string, slot: LogoSlot, v: string)
    ensures Merged(stored, b).id == stored.id
    ensures Recolored(stored, p, s, a).id == stored.id
    ensures WithLogo(stored, slot, v).id == stored.id
  {
  }

  /**
   * UpdateColors with an empty accent keeps the stored accent, while
   * UpdateBranding with an empty accent clears it.
   */
  lemma AccentClearedOnlyByUpdateBranding(stored: Branding, b: Branding, p: string, s: string)
    requires b.accentColor == ""
    ensures Recolored(stored, p, s, "").accentColor == stored.accentColor
    ensures Merged(stored, b).accentColor == ""
  {
  }

  /** Every colour UpdateColors is given non-empty is stored; the other columns are untouched. */
  lemma RecoloredSetsGivenColours(stored: Branding, p: string, s: string, a: string)
    ensures var r := Recolored(stored, p, s, a);
      (p != "" ==> r.primaryColor == p) && (p == "" ==> r.primaryColor == stored.primaryColor) &&
      (s != "" ==> r.secondaryColor == s) && (s == "" ==> r.secondaryColor == stored.secondaryColor) &&
      (a != "" ==> r.accentColor == a) && (a == "" ==> r.accentColor == stored.accentColor) &&
      r.(primaryColor := stored.primaryColor, secondaryColor := stored.secondaryColor,
         accentColor := stored.accentColor) == stored
  {
  }

  /** UpdateColors with three empty colours is a no-op, and repeating it changes nothing further. */
  lemma RecoloredNoOpAndIdempotent(stored: Branding, p: string, s: string, a: string)
    ensures Recolored(stored, "", "", "") == stored
    ensures Recolored(Recolored(stored, p, s, a), p, s, a) == Recolored(stored, p, s, a)
  {
  }

  /** A logo save or delete changes its own logo column and no other column. */
  lemma WithLogoChangesOneColumn(b: Branding, slot: LogoSlot, v: string)
    ensures LogoOf(WithLogo(b, slot, v), slot) == v
    ensures forall other: LogoSlot :: other != slot ==> LogoOf(WithLogo(b, slot, v), other) == LogoOf(b, other)
    ensures WithLogo(b, slot, v).(logoLight := b.logoLight, logoDark := b.logoDark, logoSmall := b.logoSmall) == b
  {
  }

  /** The defaults: product name "OpenUEM", the two brand colours, the powered-by notice shown, no logos. */
  lemma DefaultBrandingColumns(id: int)
    ensures DefaultBranding(id).productName == "OpenUEM"
    ensures DefaultBranding(id).primaryColor == "#16a34a"
    ensures DefaultBranding(id).secondaryColor == "#6d28d9"
    ensures DefaultBranding(id).showPoweredBy
    ensures forall slot: LogoSlot :: LogoOf(DefaultBranding(id), slot) == ""
  {
  }

  // ---------------------------------------------------------------------------
  // UpdateBranding's update builder, one group of columns at a time
  // ---------------------------------------------------------------------------

  /** Logo settings: each logo is set when non-empty and cleared when empty. */
  method SetLogoColumns(u: Branding, b: Branding) returns (r: Branding)
    ensures r == u.(logoLight := b.logoLight, logoDark := b.logoDark, logoSmall := b.logoSmall)
  {
    r := u;
    if b.logoLight != "" { r := r.(logoLight := b.logoLight); } else { r := r.(logoLight := ""); }
    if b.logoDark != "" { r := r.(logoDark := b.logoDark); } else { r := r.(logoDark := ""); }
    if b.logoSmall != "" { r := r.(logoSmall := b.logoSmall); } else { r := r.(logoSmall := ""); }
  }

  /** Colours: primary and secondary are set only when non-empty; the accent is set or cleared. */
  method SetColourColumns(u: Branding, b: Branding) returns (r: Branding)
    ensures r == u.(primaryColor := Keep(u.primaryColor, b.primaryColor),
                    secondaryColor := Keep(u.secondaryColor, b.secondaryColor),
                    accentColor := b.accentColor)
  {
    r := u;
    if b.primaryColor != "" { r := r.(primaryColor := b.primaryColor); }
    if b.secondaryColor != "" { r := r.(secondaryColor := b.secondaryColor); }
    if b.accentColor != "" { r := r.(accentColor := b.accentColor); } else { r := r.(accentColor := ""); }
  }

  /** Text settings: the product name is set only when non-empty; the four links are set or cleared. */
  method SetTextColumns(u: Branding, b: Branding) returns (r: Branding)
    ensures r == u.(productName := Keep(u.productName, b.productName), supportURL := b.supportURL,
                    supportEmail := b.supportEmail, termsURL := b.termsURL, privacyURL := b.privacyURL)
  {
    r := u;
    if b.productName != "" { r := r.(productName := b.productName); }
    if b.supportURL != "" { r := r.(supportURL := b.supportURL); } else { r := r.(supportURL := ""); }
    if b.supportEmail != "" { r := r.(supportEmail := b.supportEmail); } else { r := r.(supportEmail := ""); }
    if b.termsURL != "" { r := r.(termsURL := b.termsURL); } else { r := r.(termsURL := ""); }
    if b.privacyURL != "" { r := r.(privacyURL := b.privacyURL); } else { r := r.(privacyURL := ""); }
  }

  /** Login page and footer: set or cleared; ShowPoweredBy is always overwritten. */
  method SetLoginAndFooterColumns(u: Branding, b: Branding) returns (r: Branding)
    ensures r == u.(loginBackgroundImage := b.loginBackgroundImage, loginWelcomeText := b.loginWelcomeText,
                    footerText := b.footerText, showPoweredBy := b.showPoweredBy)
  {
    r := u;
    if b.loginBackgroundImage != "" {
      r := r.(loginBackgroundImage := b.loginBackgroundImage);
    } else {
      r := r.(loginBackgroundImage := "");
    }
    if b.loginWelcomeText != "" {
      r := r.(loginWelcomeText := b.loginWelcomeText);
    } else {
      r := r.(loginWelcomeText := "");
    }
    if b.footerText != "" { r := r.(footerText := b.footerText); } else { r := r.(footerText := ""); }
    r := r.(showPoweredBy := b.showPoweredBy);
  }

  // ---------------------------------------------------------------------------
  // The branding table
  // ---------------------------------------------------------------------------

  /** The branding table: at most one record. */
  class BrandingStore {
    var record: Option<Branding>

    constructor ()
      ensures record == None
    {
      record := None;
    }

    /** GetBranding: the first record, NotFound when there is none. */
    function GetBranding(): (r: Result<Branding, BrandingError>)
      reads this
      ensures r.Ok? <==> record.Some?
      ensures r.Ok? ==> r.value == record.value
    {
      if record.Some? then Ok(record.value) else Err(NotFound)
    }

    /** GetOrCreateBranding: the stored record unchanged, or the default one, created under `newId`. */
    method GetOrCreateBranding(newId: int) returns (b: Branding)
      modifies this
      ensures old(record).Some? ==> b == old(record).value
      ensures old(record).None? ==> b == DefaultBranding(newId)
      ensures record == Some(b)
    {
      if record.None? {
        record := Some(DefaultBranding(newId));
      }
      b := record.value;
    }

    /**
     * UpdateBranding: an update of the record with b's id built column by
     * column; NotFound, and nothing changed, when there is no such record.
     */
    method UpdateBranding(b: Branding) returns (err: Option<BrandingError>)
      modifies this
      ensures old(record).Some? && old(record).value.id == b.id ==>
        err == None && record == Some(Merged(old(record).value, b))
      ensures !(old(record).Some? && old(record).value.id == b.id) ==>
        err == Some(NotFound) && record == old(record)
    {
      if record.None? || record.value.id != b.id {
        return Some(NotFound);
      }
      var u := record.value;
      u := SetLogoColumns(u, b);
      u := SetColourColumns(u, b);
      u := SetTextColumns(u, b);
      u := SetLoginAndFooterColumns(u, b);
      record := Some(u);
      err := None;
    }

    /** UpdateColors: on the record GetOrCreateBranding yields, set each colour whose argument is non-empty. */
    method UpdateColors(primary: string, secondary: string, accent: string, newId: int)
      modifies this
      ensures record == Some(Recolored(OrDefault(old(record), newId), primary, secondary, accent))
    {
      var b := GetOrCreateBranding(newId);
      var u := b;
      if primary != "" { u := u.(primaryColor := primary); }
      if secondary != "" { u := u.(secondaryColor := secondary); }
      if accent != "" { u := u.(accentColor := accent); }
      record := Some(u);
    }

    /** SaveLogoLight, SaveLogoDark, SaveLogoSmall: set one logo column, creating the default record first if there is none. */
    method SaveLogo(slot: LogoSlot, logoData: string, newId: int)
      modifies this
      ensures record == Some(WithLogo(OrDefault(old(record), newId), slot, logoData))
    {
      var b := GetOrCreateBranding(newId);
      record := Some(WithLogo(b, slot, logoData));
    }

    /** DeleteLogoLight, DeleteLogoDark, DeleteLogoSmall: clear one logo column; NotFound, and nothing changed, when there is no record. */
    method DeleteLogo(slot: LogoSlot) returns (err: Option<BrandingError>)
      modifies this
      ensures old(record).None? ==> err == Some(NotFound) && record == old(record)
      ensures old(record).Some? ==> err == None && record == Some(WithLogo(old(record).value, slot, ""))
    {
      var found := GetBranding();
      if found.Err? {
        return Some(found.error);
      }
      record := Some(WithLogo(found.value, slot, ""));
      err := None;
    }
  }
}
