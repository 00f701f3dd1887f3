/**
 * Account setup: the checks `handleSetup` makes, the profile row and the
 * organizer or sponsor row it builds, and the order in which it writes them.
 */
module SetupPage {
  import opened Wrappers
  import opened Rows
  import Text

  /** The signed-in user as the setup page holds it. */
  datatype SetupUser = SetupUser(id: string, email: string)

  /**
   * The setup form. `role` is the selected role (`None` when none is chosen);
   * the role-specific inputs are rendered only for their role, so each may be absent.
   */
  datatype SetupForm = SetupForm(
    role: Option<string>,
    fullName: string,
    university: Option<string>,
    position: Option<string>,
    companyName: Option<string>,
    industry: Option<string>,
    description: Option<string>)

  /** A row of `organizers` as inserted. */
  datatype OrganizerRow = OrganizerRow(id: string, university: string, position: string, profile_completion: nat)

  /** A row of `sponsors` as inserted. */
  datatype SponsorRow = SponsorRow(id: string, company_name: string, industry: string, description: string,
                                   profile_completion: nat)

  /** A row the backend accepted. */
  datatype Written = ProfileWritten(profile: ProfileRow) | OrganizerWritten(organizer: OrganizerRow)
                   | SponsorWritten(sponsor: SponsorRow)

  /**
   * How setup ends: the "Not Ready" toast, the "Setup Failed" toast with its
   * text, or "Profile Created!" and the redirect. `written` lists the rows
   * inserted before the end, in order.
   */
  datatype SetupOutcome = NotReady | SetupFailed(message: string, written: seq<Written>) | ProfileCreated(written: seq<Written>)

  const RequiredMessage: string := "Role and full name are required"
  const ProfileFailure: string := "Profile creation failed: "
  const OrganizerFailure: string := "Organizer creation failed: "
  const SponsorFailure: string := "Sponsor creation failed: "
  /** The company name stored when none is given. */
  const UnknownCompany: string := "Unknown Company"

  /** `!role || !fullName.trim()`. */
  predicate MissingRequired(form: SetupForm)
  {
    form.role.None? || form.role.value == "" || Text.Trim(form.fullName) == ""
  }

  /** The `profiles` insert: the user's id and email, the trimmed full name and the role as given. */
  function ProfileInsert(user: SetupUser, role: string, fullName: string): (row: ProfileRow)
    ensures row.id == user.id && row.email == user.email && row.role == role
    ensures row.full_name == Some(Text.Trim(fullName))
    ensures Text.Trimmed(row.full_name.value)
    ensures row.full_name.value == "" <==> forall i :: 0 <= i < |fullName| ==> Text.IsSpace(fullName[i])
  {
    Text.TrimSpec(fullName);
    Text.TrimEmptyIffBlank(fullName);
    ProfileRow(user.id, user.email, Some(Text.Trim(fullName)), role)
  }

  /** The `organizers` insert: university and position default to "" and are trimmed. */
  function OrganizerInsert(userId: string, form: SetupForm): (row: OrganizerRow)
    ensures row.id == userId && row.profile_completion == 60
    ensures row.university == Text.Trim(Text.OrDefault(form.university, ""))
    ensures row.position == Text.Trim(Text.OrDefault(form.position, ""))
    ensures Text.Trimmed(row.university) && Text.Trimmed(row.position)
    ensures form.university.None? ==> row.university == ""
    ensures form.position.None? ==> row.position == ""
  {
    var university := Text.OrDefault(form.university, "");
    var position := Text.OrDefault(form.position, "");
    Text.TrimSpec(university);
    Text.TrimSpec(position);
    OrganizerRow(userId, Text.Trim(university), Text.Trim(position), 60)
  }

  /** The default company name has no white space to trim. */
  lemma UnknownCompanyTrimmed()
    ensures Text.Trim(UnknownCompany) == UnknownCompany
  {
    assert Text.LeadingSpaces(UnknownCompany) == 0;
    assert Text.TrailingSpaces(UnknownCompany) == 0;
  }

  /**
   * The `sponsors` insert: the company name defaults to "Unknown Company" and is
   * then trimmed, the industry defaults to "other" and is kept as given, the
   * description defaults to "" and is trimmed.
   */
  function SponsorInsert(userId: string, form: SetupForm): (row: SponsorRow)
    ensures row.id == userId && row.profile_completion == 60
    ensures form.companyName.None? || form.companyName.value == "" ==> row.company_name == UnknownCompany
    ensures form.companyName.Some? && form.companyName.value != "" ==> row.company_name == Text.Trim(form.companyName.value)
    ensures form.industry.None? || form.industry.value == "" ==> row.industry == "other"
    ensures form.industry.Some? && form.industry.value != "" ==> row.industry == form.industry.value
    ensures row.description == Text.Trim(Text.OrDefault(form.description, ""))
    ensures Text.Trimmed(row.company_name) && Text.Trimmed(row.description)
  {
    var companyName := Text.OrDefault(form.companyName, UnknownCompany);
    var description := Text.OrDefault(form.description, "");
    Text.TrimSpec(companyName);
    Text.TrimSpec(description);
    UnknownCompanyTrimmed();
    SponsorRow(userId, Text.Trim(companyName), Text.OrDefault(form.industry, "other"), Text.Trim(description), 60)
  }

  /**
   * The default applies before the trim, so a company name of white space only
   * is truthy, escapes the default, and is stored as "".
   */
  lemma BlankCompanyNameStoredEmpty(userId: string, form: SetupForm)
    requires form.companyName.Some? && form.companyName.value != ""
    requires forall i :: 0 <= i < |form.companyName.value| ==> Text.IsSpace(form.companyName.value[i])
    ensures SponsorInsert(userId, form).company_name == ""
  {
    Text.TrimEmptyIffBlank(form.companyName.value);
  }

  /**
   * `handleSetup(formData)`. `tablesExist` is the outcome of the earlier database
   * check; `profileError` and `roleError` are the messages of the backend's error
   * replies to the profile insert and to the role insert.
   */
  method HandleSetup(tablesExist: bool, user: Option<SetupUser>, form: SetupForm,
                     profileError: Option<string>, roleError: Option<string>)
    returns (outcome: SetupOutcome)
    ensures !tablesExist || user.None? ==> outcome == NotReady
    ensures tablesExist && user.Some? && MissingRequired(form) ==>
      outcome == SetupFailed(RequiredMessage, [])
    ensures tablesExist && user.Some? && !MissingRequired(form) && profileError.Some? ==>
      outcome == SetupFailed(ProfileFailure + profileError.value, [])
    ensures tablesExist && user.Some? && !MissingRequired(form) && profileError.None? ==>
      var profile := ProfileWritten(ProfileInsert(user.value, form.role.value, form.fullName));
      var role := form.role.value;
      outcome == if role == "organizer" then
                   if roleError.Some? then SetupFailed(OrganizerFailure + roleError.value, [profile])
                   else ProfileCreated([profile, OrganizerWritten(OrganizerInsert(user.value.id, form))])
                 else if role == "sponsor" then
                   if roleError.Some? then SetupFailed(SponsorFailure + roleError.value, [profile])
                   else ProfileCreated([profile, SponsorWritten(SponsorInsert(user.value.id, form))])
                 else ProfileCreated([profile])
    ensures !outcome.NotReady? ==> |outcome.written| <= 2
    ensures !outcome.NotReady? && |outcome.written| >= 1 ==> outcome.written[0].ProfileWritten?
    ensures !outcome.NotReady? ==> forall i :: 0 <= i < |outcome.written| ==>
      (outcome.written[i].OrganizerWritten? ==> form.role == Some("organizer")) &&
      (outcome.written[i].SponsorWritten? ==> form.role == Some("sponsor"))
  {
    if !tablesExist || user.None? {
      return NotReady;
    }
    if MissingRequired(form) {
      return SetupFailed(RequiredMessage, []);
    }
    if profileError.Some? {
      return SetupFailed(ProfileFailure + profileError.value, []);
    }
    var role := form.role.value;
    var written := [ProfileWritten(ProfileInsert(user.value, role, form.fullName))];
    if role == "organizer" {
      if roleError.Some? {
        return SetupFailed(OrganizerFailure + roleError.value, written);
      }
      written := written + [OrganizerWritten(OrganizerInsert(user.value.id, form))];
    } else if role == "sponsor" {
      if roleError.Some? {
        return SetupFailed(SponsorFailure + roleError.value, written);
      }
      written := written + [SponsorWritten(SponsorInsert(user.value.id, form))];
    }
    return ProfileCreated(written);
  }
}
