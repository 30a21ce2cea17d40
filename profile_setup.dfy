/** The contact profile-setup page: where it sends the user next, when it marks the
    user's setup as finished, and how the contact being edited is cached in the session. */
module ProfileSetup {
  import opened Strings
  import opened Wrappers

  /** `ContactProfileSetupView.RedirectType`. */
  datatype RedirectType = Home | BackToSelf | CompleteSetup | ToSpecificPage

  /** The string constant behind each redirect type. */
  function Name(t: RedirectType): string {
    match t
    case Home => "home"
    case BackToSelf => "back_to_self"
    case CompleteSetup => "complete_setup"
    case ToSpecificPage => "domain_request"
  }

  /** The redirect type a `redirect` query value names, when it is one of the four
      listed in `default_redirects`. */
  function Parse(s: string): (t: Option<RedirectType>)
    ensures t.Some? ==> Name(t.value) == s
  {
    if s == "home" then Some(Home)
    else if s == "complete_setup" then Some(CompleteSetup)
    else if s == "back_to_self" then Some(BackToSelf)
    else if s == "domain_request" then Some(ToSpecificPage)
    else None
  }

  /** Every redirect type is recognised from its own string: `Parse` inverts `Name`. */
  lemma ParseName(t: RedirectType)
    ensures Parse(Name(t)) == Some(t)
  {
  }

  /** A character that `quote` and `urlencode` leave as it is. */
  predicate UrlSafe(c: char) {
    ('a' <= c <= 'z') || ('A' <= c <= 'Z') || ('0' <= c <= '9') || c == '_' || c == '.' || c == '-' || c == '~'
  }

  /** The redirect strings need no escaping, so the `redirect` query value of a link is
      the redirect type's string itself. */
  lemma NamesAreUrlSafe(t: RedirectType)
    ensures forall i :: 0 <= i < |Name(t)| ==> UrlSafe(Name(t)[i])
  {
  }

  /** A contact record, as cached in the session and edited by the form. */
  datatype Contact = Contact(pk: nat, fields: map<string, string>)

  /** A session value: a cached contact, or the view name to return to. */
  datatype Entry = Cached(contact: Contact) | ViewName(name: string)

  const ViewNameKey: string := "profile_setup_redirect_viewname"

  /** `"contact:" + str(pk)`, the session key under which a contact is cached. */
  function ContactKey(pk: nat): (key: string)
    ensures |key| > 8 && key[..8] == "contact:"
  {
    "contact:" + NatToString(pk)
  }

  /** Different contacts are cached under different keys. */
  lemma ContactKeyInjective(a: nat, b: nat)
    requires ContactKey(a) == ContactKey(b)
    ensures a == b
  {
    assert NatToString(a) == ContactKey(a)[8..];
    assert NatToString(b) == ContactKey(b)[8..];
    NatToStringInjective(a, b);
  }

  /** Caching a contact never overwrites the stored view name. */
  lemma ContactKeyIsNotViewNameKey(pk: nat)
    ensures ContactKey(pk) != ViewNameKey
  {
    assert ContactKey(pk)[0] == 'c' && ViewNameKey[0] == 'p';
  }

  /** `request.session`, shared by the request and the view. */
  class Session {
    var entries: map<string, Entry>

    constructor(entries: map<string, Entry>)
      ensures this.entries == entries
    {
      this.entries := entries;
    }
  }

  /** The signed-in user. */
  class User {
    var finishedSetup: bool
    var saves: nat

    constructor(finishedSetup: bool)
      ensures this.finishedSetup == finishedSetup && saves == 0
    {
      this.finishedSetup := finishedSetup;
      saves := 0;
    }
  }

  /** The redirect type `dispatch` leaves: with no `redirect` parameter the existing
      type, or BACK_TO_SELF when there is none; with a parameter, the type it names,
      or TO_SPECIFIC_PAGE for any other value. */
  function Adopt(current: Option<RedirectType>, redirect: Option<string>): (r: Option<RedirectType>)
    ensures r.Some?
    ensures redirect.None? && current.Some? ==> r == current
    ensures redirect.None? && current.None? ==> r == Some(BackToSelf)
    ensures redirect.Some? ==> r.value == ToSpecificPage || Name(r.value) == redirect.value
  {
    if redirect.None? then
      if current.None? then Some(BackToSelf) else current
    else if Parse(redirect.value).Some? then Parse(redirect.value)
    else Some(ToSpecificPage)
  }

  /** Dispatching the same request twice changes nothing more. */
  lemma AdoptIdempotent(current: Option<RedirectType>, redirect: Option<string>)
    ensures Adopt(Adopt(current, redirect), redirect) == Adopt(current, redirect)
  {
  }

  /** A recognised `redirect` value is adopted whatever the current type; an
      unrecognised one always selects TO_SPECIFIC_PAGE. */
  lemma AdoptFollowsParameter(current: Option<RedirectType>, value: string)
    ensures Parse(value).Some? ==> Adopt(current, Some(value)) == Parse(value)
    ensures Parse(value).None? ==> Adopt(current, Some(value)) == Some(ToSpecificPage)
  {
  }

  /** The redirect type a valid post leaves: the save button asks to confirm the
      changes; the submit button goes on to the stored view, or home without one;
      neither button leaves the type as it is. */
  function AfterPost(current: Option<RedirectType>, save: bool, submit: bool, hasViewName: bool): (r: Option<RedirectType>)
    ensures !save && !submit ==> r == current
    ensures save ==> r == Some(CompleteSetup)
    ensures !save && submit ==> r == Some(if hasViewName then ToSpecificPage else Home)
  {
    if save then Some(CompleteSetup)
    else if submit then Some(if hasViewName then ToSpecificPage else Home)
    else current
  }

  /** The redirect types after which the setup counts as finished. */
  predicate Completes(t: Option<RedirectType>) {
    t == Some(ToSpecificPage) || t == Some(Home)
  }

  /** Submitting always finishes the setup; saving never does. */
  lemma SubmitFinishesSaveDoesNot(current: Option<RedirectType>, submit: bool, hasViewName: bool)
    ensures Completes(AfterPost(current, false, true, hasViewName))
    ensures !Completes(AfterPost(current, true, submit, hasViewName))
  {
  }

  /** A URL split into the path `reverse` yields and its query string. */
  datatype Link = Link(path: string, query: string)

  /** What a request ends in: a redirect, the form shown again, or an exception. */
  datatype Response = Redirect(to: Link) | Rerender | Raised

  /** `ContactProfileSetupView`, holding the contact of the URL's `pk`. */
  class SetupView {
    var redirectType: Option<RedirectType>
    var contact: Option<Contact>
    const pk: nat
    const session: Session
    const user: User

    constructor(pk: nat, session: Session, user: User)
      ensures this.pk == pk && this.session == session && this.user == user
      ensures redirectType.None? && contact.None?
    {
      this.pk := pk;
      this.session := session;
      this.user := user;
      redirectType := None;
      contact := None;
    }

    /** `_update_session_with_contact`: cache the current contact under its key. */
    method UpdateSessionWithContact()
      requires contact.Some?
      modifies session
      ensures session.entries == old(session.entries)[ContactKey(pk) := Cached(contact.value)]
    {
      session.entries := session.entries[ContactKey(pk) := Cached(contact.value)];
    }

    /** `_set_contact`: take the contact from the session cache when it is there, from
        the database (`stored`) otherwise, and cache it. */
    method SetContact(stored: Contact)
      requires stored.pk == pk
      modifies this, session
      ensures var key := ContactKey(pk);
        contact == Some(if key in old(session.entries) && old(session.entries)[key].Cached?
                       then old(session.entries)[key].contact else stored)
      ensures session.entries == old(session.entries)[ContactKey(pk) := Cached(contact.value)]
      ensures redirectType == old(redirectType)
    {
      var key := ContactKey(pk);
      if key in session.entries && session.entries[key].Cached? {
        contact := Some(session.entries[key].contact);
      } else {
        contact := Some(stored);
      }
      UpdateSessionWithContact();
    }

    /** `dispatch`: adopt the `redirect` query parameter; an unrecognised value is kept
        in the session as the view name to return to. */
    method Dispatch(redirect: Option<string>)
      modifies this, session
      ensures redirectType == Adopt(old(redirectType), redirect)
      ensures session.entries ==
        if redirect.Some? && Parse(redirect.value).None?
        then old(session.entries)[ViewNameKey := ViewName(redirect.value)]
        else old(session.entries)
      ensures contact == old(contact)
    {
      if redirect.None? {
        if redirectType.None? {
          redirectType := Some(BackToSelf);
        }
      } else {
        var t := Parse(redirect.value);
        if t.None? {
          redirectType := Some(ToSpecificPage);
          session.entries := session.entries[ViewNameKey := ViewName(redirect.value)];
        } else {
          redirectType := t;
        }
      }
    }

    /** The path `get_redirect_url` starts from, or `None` when computing it raises:
        the `reverse` oracle yields `None` for a view name it cannot reverse. */
    function BasePath(reverse: string -> Option<string>, setupPath: nat -> string): Option<string>
      reads this, session
    {
      match redirectType
      case Some(Home) => reverse("home")
      case Some(BackToSelf) | Some(CompleteSetup) =>
        if contact.None? then None else Some(setupPath(contact.value.pk))
      case Some(ToSpecificPage) =>
        if ViewNameKey in session.entries && session.entries[ViewNameKey].ViewName? then
          var desired := reverse(session.entries[ViewNameKey].name);
          if desired.Some? then desired else reverse("home")
        else None
      case None => reverse("home")
    }

    /** `get_redirect_url`: the base path with the query `redirect=<type>`, or `None`
        when it raises (`quote(None)` raises when no type is set). */
    function RedirectLink(reverse: string -> Option<string>, setupPath: nat -> string): (r: Option<Link>)
      reads this, session
      ensures r.Some? <==> redirectType.Some? && BasePath(reverse, setupPath).Some?
      ensures r.Some? ==> r.value.query == "redirect=" + Name(redirectType.value)
    {
      var base := BasePath(reverse, setupPath);
      if redirectType.None? || base.None? then None
      else Some(Link(base.value, "redirect=" + Name(redirectType.value)))
    }

    /** The `redirect` parameter of the link leads `dispatch` back to the same type, so
        following the link keeps the page's redirect type. */
    lemma RedirectRoundTrip(reverse: string -> Option<string>, setupPath: nat -> string, current: Option<RedirectType>)
      requires RedirectLink(reverse, setupPath).Some?
      ensures var q := RedirectLink(reverse, setupPath).value.query;
        |q| >= 9 && q[..9] == "redirect=" && Adopt(current, Some(q[9..])) == redirectType
    {
      var t := redirectType.value;
      var q := RedirectLink(reverse, setupPath).value.query;
      assert q[9..] == Name(t);
      ParseName(t);
    }

    /** Where the link leads: home for HOME, this contact's setup page for BACK_TO_SELF
        and COMPLETE_SETUP, and for TO_SPECIFIC_PAGE the stored view, or home when that
        view cannot be reversed. */
    lemma RedirectFollowsType(reverse: string -> Option<string>, setupPath: nat -> string)
      ensures redirectType == Some(Home) ==> BasePath(reverse, setupPath) == reverse("home")
      ensures (redirectType == Some(BackToSelf) || redirectType == Some(CompleteSetup)) && contact.Some? ==>
        BasePath(reverse, setupPath) == Some(setupPath(contact.value.pk))
      ensures redirectType == Some(ToSpecificPage) && ViewNameKey in session.entries && session.entries[ViewNameKey].ViewName? ==>
        var desired := reverse(session.entries[ViewNameKey].name);
        BasePath(reverse, setupPath) == if desired.Some? then desired else reverse("home")
      ensures redirectType == Some(ToSpecificPage) && ViewNameKey !in session.entries ==> BasePath(reverse, setupPath).None?
    {
    }

    /** The keys `get_context_data` adds to the template context. */
    function AddedContext(): (keys: set<string>)
      reads this
      ensures "email_sublabel_text" in keys
      ensures "confirm_changes" in keys <==> redirectType == Some(CompleteSetup)
    {
      {"email_sublabel_text"} + if redirectType == Some(CompleteSetup) then {"confirm_changes"} else {}
    }

    /** `form_valid`: finish the setup for the completing redirect types (never undoing
        it), copy the cleaned data onto the contact, cache it, and redirect. */
    method FormValid(cleaned: map<string, string>, reverse: string -> Option<string>, setupPath: nat -> string)
      returns (response: Response)
      requires contact.Some?
      modifies this, session, user
      ensures user.finishedSetup == (old(user.finishedSetup) || Completes(redirectType))
      ensures user.saves == old(user.saves) + (if Completes(redirectType) then 1 else 0)
      ensures redirectType == old(redirectType)
      ensures contact == Some(old(contact).value.(fields := old(contact).value.fields + cleaned))
      ensures session.entries == old(session.entries)[ContactKey(pk) := Cached(contact.value)]
      ensures var l := RedirectLink(reverse, setupPath); response == if l.Some? then Redirect(l.value) else Raised
    {
      if Completes(redirectType) {
        user.finishedSetup := true;
        user.saves := user.saves + 1;
      }
      contact := Some(contact.value.(fields := contact.value.fields + cleaned));
      UpdateSessionWithContact();
      var l := RedirectLink(reverse, setupPath);
      response := if l.Some? then Redirect(l.value) else Raised;
    }

    /** `post`: load and cache the contact; on a valid form set the redirect type from
        the button pressed and finish as `form_valid`; otherwise re-cache the contact and
        show the form again. */
    method Post(stored: Contact, valid: bool, save: bool, submit: bool, cleaned: map<string, string>,
                reverse: string -> Option<string>, setupPath: nat -> string) returns (response: Response)
      requires stored.pk == pk
      modifies this, session, user
      ensures valid ==> redirectType == AfterPost(old(redirectType), save, submit, ViewNameKey in old(session.entries))
      ensures !valid ==> redirectType == old(redirectType) && response == Rerender
      ensures user.finishedSetup == (old(user.finishedSetup) || (valid && Completes(redirectType)))
      ensures user.saves == old(user.saves) + (if valid && Completes(redirectType) then 1 else 0)
      ensures var key := ContactKey(pk);
        var loaded := if key in old(session.entries) && old(session.entries)[key].Cached?
                      then old(session.entries)[key].contact else stored;
        contact == Some(if valid then loaded.(fields := loaded.fields + cleaned) else loaded)
      ensures session.entries == old(session.entries)[ContactKey(pk) := Cached(contact.value)]
      ensures valid ==> var l := RedirectLink(reverse, setupPath);
        response == if l.Some? then Redirect(l.value) else Raised
    {
      SetContact(stored);
      ContactKeyIsNotViewNameKey(pk);
      if valid {
        redirectType := AfterPost(redirectType, save, submit, ViewNameKey in session.entries);
        response := FormValid(cleaned, reverse, setupPath);
      } else {
        UpdateSessionWithContact();
        response := Rerender;
      }
    }
  }
}
