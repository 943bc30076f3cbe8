/** The site footer's two small forms: "refer a friend" (by text or by
    email) and "import your listing" (a listing URL and an email), with
    the guards that decide whether a submission goes through, and the
    default link columns. */
module FooterForm {
  import opened Strings

  datatype Link = Link(text: string, url: string)
  datatype Column = Column(title: string, links: seq<Link>)

  const DefaultColumns: seq<Column> := [
    Column("For Hosts", [
      Link("List Property Now", "https://app.split.lease/signup-login"),
      Link("How to List", "https://app.split.lease/host-step-by-step-guide-to-list"),
      Link("Legal Section", "https://app.split.lease/policies/cancellation-and-refund-policy"),
      Link("Guarantees", "https://app.split.lease/host-guarantee"),
      Link("Free House Manual", "https://app.split.lease/demo-house-manual")
    ]),
    Column("For Guests", [
      Link("Explore Split Leases", "search/index.html"),
      Link("Success Stories", "https://app.split.lease/success-stories-guest"),
      Link("Speak to an Agent", "https://app.split.lease/signup-login"),
      Link("View FAQ", "https://app.split.lease/faq")
    ]),
    Column("Company", [
      Link("About Periodic Tenancy", "https://app.split.lease/faq?question=Guest&answer=1692211080963x751695924087252700"),
      Link("About the Team", "https://app.split.lease/about-us"),
      Link("Careers at Split Lease", "https://app.split.lease/careers"),
      Link("View Blog", "https://app.split.lease/knowledge-base/1676496004548x830972865850585500")
    ])
  ]

  /** The default footer has three columns of five, four and four links;
      the guests' column opens with the relative link to the search page. */
  lemma DefaultColumnsShape()
    ensures |DefaultColumns| == 3
    ensures DefaultColumns[0].title == "For Hosts" && |DefaultColumns[0].links| == 5
    ensures DefaultColumns[1].title == "For Guests" && |DefaultColumns[1].links| == 4
    ensures DefaultColumns[2].title == "Company" && |DefaultColumns[2].links| == 4
    ensures DefaultColumns[1].links[0].url == "search/index.html"
  {
  }

  datatype ReferralMethod = ByText | ByEmail

  /** `getReferralPlaceholder` */
  function ReferralPlaceholder(m: ReferralMethod): (r: string)
    ensures r == "Your friend's phone number" <==> m.ByText?
    ensures r == "Your friend's email" <==> m.ByEmail?
  {
    assert "Your friend's phone number"[14] != "Your friend's email"[14];
    if m == ByText then "Your friend's phone number" else "Your friend's email"
  }

  /** The caption of the import button. */
  function SubmitLabel(isSubmitting: bool): (r: string)
    ensures r == "Submit" <==> !isSubmitting
    ensures r == "Importing..." <==> isSubmitting
  {
    if isSubmitting then "Importing..." else "Submit"
  }

  /** A value that is empty or only white space once trimmed. */
  predicate Blank(s: string) {
    Trim(s) == ""
  }

  /** The guards of `handleImportSubmit`: neither field blank, the URL
      (untrimmed) starting with `http://` or `https://`, and the email
      containing both `@` and `.`. */
  predicate ImportAccepted(url: string, email: string)
    ensures ImportAccepted(url, email) ==> |url| >= 7 && url[..4] == "http" && '@' in email && '.' in email
  {
    HttpPrefix(url);
    ContainsChar(email, '@');
    ContainsChar(email, '.');
    !Blank(url) && !Blank(email) &&
    (StartsWith(url, "http://") || StartsWith(url, "https://")) &&
    Contains(email, "@") && Contains(email, ".")
  }

  /** Both accepted prefixes start with `http` and are at least seven
      characters long. */
  lemma HttpPrefix(url: string)
    ensures StartsWith(url, "http://") || StartsWith(url, "https://") ==> |url| >= 7 && url[..4] == "http"
  {
    if StartsWith(url, "http://") {
      assert url[..4] == url[..7][..4];
    } else if StartsWith(url, "https://") {
      assert url[..4] == url[..8][..4];
    }
  }

  /** The blank tests are implied by the others: an import goes through
      exactly when the URL has an http or https prefix and the email has an
      `@` and a `.` somewhere. */
  lemma ImportAcceptedIff(url: string, email: string)
    ensures ImportAccepted(url, email) <==>
      (StartsWith(url, "http://") || StartsWith(url, "https://")) && '@' in email && '.' in email
  {
    ContainsChar(email, '@');
    ContainsChar(email, '.');
    if StartsWith(url, "http://") || StartsWith(url, "https://") {
      assert url[0] == 'h';
      TrimNonBlank(url, 0);
    }
    if '@' in email {
      var i :| 0 <= i < |email| && email[i] == '@';
      TrimNonBlank(email, i);
    }
  }

  class Footer {
    var referralMethod: ReferralMethod
    var referralContact: string
    var importUrl: string
    var importEmail: string
    var isSubmitting: bool
    /** The calls made to `onReferralSubmit`, oldest first. */
    var referrals: seq<(ReferralMethod, string)>
    /** The calls made to `onImportSubmit`, oldest first. */
    var imports: seq<(string, string)>
    const hasReferralCallback: bool
    const hasImportCallback: bool

    constructor (hasReferralCallback: bool, hasImportCallback: bool)
      ensures referralMethod == ByText && referralContact == ""
      ensures importUrl == "" && importEmail == "" && !isSubmitting
      ensures referrals == [] && imports == []
      ensures this.hasReferralCallback == hasReferralCallback
      ensures this.hasImportCallback == hasImportCallback
    {
      this.hasReferralCallback := hasReferralCallback;
      this.hasImportCallback := hasImportCallback;
      referralMethod := ByText;
      referralContact := "";
      importUrl := "";
      importEmail := "";
      isSubmitting := false;
      referrals := [];
      imports := [];
    }

    method SetReferralMethod(m: ReferralMethod)
      modifies this
      ensures referralMethod == m && referralContact == old(referralContact)
      ensures importUrl == old(importUrl) && importEmail == old(importEmail)
      ensures isSubmitting == old(isSubmitting)
      ensures referrals == old(referrals) && imports == old(imports)
    {
      referralMethod := m;
    }

    method SetReferralContact(text: string)
      modifies this
      ensures referralContact == text && referralMethod == old(referralMethod)
      ensures importUrl == old(importUrl) && importEmail == old(importEmail)
      ensures isSubmitting == old(isSubmitting)
      ensures referrals == old(referrals) && imports == old(imports)
    {
      referralContact := text;
    }

    method SetImportUrl(text: string)
      modifies this
      ensures importUrl == text && importEmail == old(importEmail)
      ensures referralMethod == old(referralMethod) && referralContact == old(referralContact)
      ensures isSubmitting == old(isSubmitting)
      ensures referrals == old(referrals) && imports == old(imports)
    {
      importUrl := text;
    }

    method SetImportEmail(text: string)
      modifies this
      ensures importEmail == text && importUrl == old(importUrl)
      ensures referralMethod == old(referralMethod) && referralContact == old(referralContact)
      ensures isSubmitting == old(isSubmitting)
      ensures referrals == old(referrals) && imports == old(imports)
    {
      importEmail := text;
    }

    /** `handleReferralSubmit`: a blank contact does nothing; otherwise the
        callback, when given, receives the method and the contact as typed,
        and the contact is cleared. */
    method ReferralSubmit()
      modifies this
      ensures Blank(old(referralContact)) ==> unchanged(this)
      ensures !Blank(old(referralContact)) ==>
        referralContact == "" &&
        referrals == old(referrals) + (if hasReferralCallback then [(referralMethod, old(referralContact))] else [])
      ensures referralMethod == old(referralMethod) && imports == old(imports)
      ensures importUrl == old(importUrl) && importEmail == old(importEmail)
      ensures isSubmitting == old(isSubmitting)
    {
      if Trim(referralContact) == "" {
        return;
      }
      if hasReferralCallback {
        referrals := referrals + [(referralMethod, referralContact)];
      }
      referralContact := "";
    }

    /** `handleImportSubmit`: a rejected import does nothing; an accepted
        one sets the submitting flag and passes the URL and email, as typed,
        to the callback when given. */
    method ImportSubmit()
      modifies this
      ensures !ImportAccepted(old(importUrl), old(importEmail)) ==> unchanged(this)
      ensures ImportAccepted(old(importUrl), old(importEmail)) ==>
        isSubmitting &&
        imports == old(imports) + (if hasImportCallback then [(importUrl, importEmail)] else [])
      ensures importUrl == old(importUrl) && importEmail == old(importEmail)
      ensures referralMethod == old(referralMethod) && referralContact == old(referralContact)
      ensures referrals == old(referrals)
    {
      if Trim(importUrl) == "" || Trim(importEmail) == "" {
        return;
      }
      if !StartsWith(importUrl, "http://") && !StartsWith(importUrl, "https://") {
        return;
      }
      if !Contains(importEmail, "@") || !Contains(importEmail, ".") {
        return;
      }
      isSubmitting := true;
      if hasImportCallback {
        imports := imports + [(importUrl, importEmail)];
      }
    }

    /** The timer two seconds after an accepted import: the flag drops and
        both fields are cleared. */
    method FinishImport()
      modifies this
      ensures !isSubmitting && importUrl == "" && importEmail == ""
      ensures referralMethod == old(referralMethod) && referralContact == old(referralContact)
      ensures referrals == old(referrals) && imports == old(imports)
    {
      isSubmitting := false;
      importUrl := "";
      importEmail := "";
    }
  }

  // ---------------------------------------------------------------------
  // Mounting from the page (footer.js)

  /** What the page passes to the footer. */
  datatype FooterProps = FooterProps(showReferral: bool, showImport: bool, showAppDownload: bool, termsUrl: string)

  const DefaultTermsUrl: string := "https://app.split.lease/terms"

  /** A show flag read from a data attribute (`None` when absent): an
      absent or empty attribute shows the part, otherwise anything but the
      exact text `false` shows it. */
  function ShowFlag(attr: Option<string>): (r: bool)
    ensures !r <==> attr == Some("false")
  {
    if attr.None? || attr.value == "" then true else attr.value != "false"
  }

  /** A part is hidden only by the exact attribute value `false`; `False`,
      `0` or an absent attribute show it. */
  lemma ShowFlagFalseIff(attr: Option<string>)
    ensures !ShowFlag(attr) <==> attr == Some("false")
    ensures ShowFlag(Some("False")) && ShowFlag(Some("0")) && ShowFlag(None) && ShowFlag(Some(""))
  {
  }

  /** `termsUrl || default` */
  function TermsUrl(attr: Option<string>): (r: string)
    ensures r != ""
    ensures attr.Some? && attr.value != "" ==> r == attr.value
  {
    if attr.None? || attr.value == "" then DefaultTermsUrl else attr.value
  }

  /** The mount script: nothing is rendered without the root element, the
      footer component or React; otherwise the props come from the four
      data attributes. */
  function Mount(hasRoot: bool, hasFooter: bool, hasReact: bool,
                 showReferral: Option<string>, showImport: Option<string>,
                 showAppDownload: Option<string>, termsUrl: Option<string>): (r: Option<FooterProps>)
    ensures r.Some? <==> hasRoot && hasFooter && hasReact
    ensures r.Some? ==> r.value.termsUrl != ""
    ensures r.Some? ==> (r.value.showReferral <==> showReferral != Some("false"))
    ensures r.Some? ==> (r.value.showImport <==> showImport != Some("false"))
    ensures r.Some? ==> (r.value.showAppDownload <==> showAppDownload != Some("false"))
  {
    if !hasRoot || !hasFooter || !hasReact then None
    else
      ShowFlagFalseIff(showReferral);
      ShowFlagFalseIff(showImport);
      ShowFlagFalseIff(showAppDownload);
      Some(FooterProps(ShowFlag(showReferral), ShowFlag(showImport), ShowFlag(showAppDownload), TermsUrl(termsUrl)))
  }
}
