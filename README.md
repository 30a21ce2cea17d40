# The .gov registrar: wizard persistence, profile setup, admin review and legacy migration

This project models the core of the .gov domain registrar, a Django application where
organisations request `.gov` domains and analysts review them. Four parts are modelled.

- **The domain-request wizard.** Its forms write cleaned data onto the request and read it
  back. Its formsets (current websites, alternative domains, other contacts) reconcile the
  rows a request is joined to against the submitted forms. They walk `zip_longest(rows,
  forms)` and update, delete, detach or create rows. The contact steps reuse or replace the
  request's contacts. The other-contacts forms can be marked for deletion. The tribal,
  election-board, ZIP and federal-agency validators are modelled too.
- **The contact profile-setup page.** This covers where it sends the user next (its
  `redirect_type`), when it marks the user's setup as finished, and how it caches the
  contact being edited in the session.
- **The admin behaviour the admin tests pin down.** A domain is placed on hold, released and
  deleted through the registry. Saving a domain request with a new status may notify the
  submitter, link or unlink the approved domain, restrict the creator, or be refused. The
  status choices the admin form offers are modelled, and so is the sort-order helper
  `coerced_fk_field_helper`.
- **The legacy-domain migration.** Staging rows are loaded and then transferred to domains
  and invitations. Invited users log in. `compare_tables` classifies every staging row as
  missing its domain, duplicated, missing its information row or missing its invitation.
  The model proves the counts of each scenario for a fixed eight-row export.

Modules:

- `Wrappers` holds `Option`.
- `Strings` holds the Python string operations used: strip, lower, `str(int)` and split.
- `WizardForms` and `WizardFormSet` hold the wizard.
- `ProfileSetup` holds the profile-setup page.
- `DomainAdmin` and `AdminHelpers` hold the admin behaviour.
- `Migration` holds the migration.

Where the source changes state in place, the model is a class with `modifies` clauses.
Those classes are `Model`, `JoinStore`, `OtherContactsForm`, `SetupView`, `Session`,
`Domain`, `Application` and `Database`. Each method's `ensures` gives its result and its
whole new state in terms of the old state. Some do this directly. Others go through a
specification function such as `Next`, `DeleteOutcome`, `Adopt`, `AfterPost`, `Load`,
`Transfer` or `Login`, whose properties are proved as separate lemmas.

## Model

| member | source | states |
|---|---|---|
| WizardForms.FormToDatabase | src/registrar/forms/application_wizard.py:36-46 | An invalid form changes nothing. A valid one sets every cleaned field on the object, leaving the other columns alone, and saves once. Its references are untouched. |
| WizardForms.FormFromDatabase | src/registrar/forms/application_wizard.py:48-53 | Without an object the initial data is empty. Otherwise it holds exactly the declared fields, each with the object's column value. |
| WizardForms.ReadBackAfterWrite | src/registrar/forms/application_wizard.py:36-53 | Writing a form's cleaned data and reading the same fields back returns that data unchanged (write/read round trip). |
| WizardForms.ContactToDatabase | src/registrar/forms/application_wizard.py:333-346 | An existing contact joined to nothing else is updated in place. Otherwise a fresh contact holding exactly the cleaned data, with no references, is created and saved once, the request points to it and is saved, and the previous contact is left unchanged. An invalid form changes nothing. |
| WizardForms.AuthorizingOfficialToDatabase | src/registrar/forms/application_wizard.py:333-346 | The same reuse-or-replace rule for `authorizing_official`, judged through its `authorizing_official` join. Every other referenced row is left unchanged. |
| WizardForms.YourContactToDatabase | src/registrar/forms/application_wizard.py:529-542 | The same reuse-or-replace rule for `submitter`, judged through its `submitted_applications` join. Every other referenced row is left unchanged. |
| WizardForms.DotGov | src/registrar/forms/application_wizard.py:470-484 | The stored name is the entered label followed by exactly `.gov`. |
| WizardForms.DotGovToDatabase | src/registrar/forms/application_wizard.py:470-484 | With an entered domain, an existing draft is renamed to `<label>.gov` rather than a second draft being created. With no draft yet, a fresh one with that name is created and linked. With no domain entered, the draft link is left as it was. A valid form always saves the request, and an invalid one changes nothing. The request's columns and every other referenced row are left unchanged. |
| WizardForms.DotGovFromDatabase | src/registrar/forms/application_wizard.py:486-493 | Without a draft the initial data is empty. With one, `requested_domain` is the draft's second-level label. |
| WizardForms.DotGovRoundTrip | src/registrar/forms/application_wizard.py:470-493 | Reading back the name `to_database` stores gives the entered label again, for an `sld` that removes the `.gov` suffix. |
| WizardForms.DiscardFieldErrors | src/registrar/forms/application_wizard.py:669-671 | Afterwards the errors are exactly the old errors minus the form's fields, with their messages unchanged. |
| WizardForms.OtherContactsForm.MarkForDeletion | src/registrar/forms/application_wizard.py:650-651 | Sets the mark and leaves the data and errors alone. |
| WizardForms.OtherContactsForm.Clean | src/registrar/forms/application_wizard.py:653-677 | A marked or DELETE-flagged form loses its field errors and cleans to exactly `{"DELETE": True}`. Any other form returns its cleaned data with its errors untouched. |
| WizardForms.NoOtherContactsForm.MarkForDeletion | src/registrar/forms/application_wizard.py:780-784 | Sets the mark and leaves the data and errors alone. |
| WizardForms.NoOtherContactsForm.Clean | src/registrar/forms/application_wizard.py:786-806 | A marked form loses its field errors. The cleaned data is returned unchanged either way. |
| WizardForms.NoOtherContactsForm.ToDatabase | src/registrar/forms/application_wizard.py:808-823 | A marked form sets every one of its fields on the request to None. An unmarked one writes its cleaned data. Either saves once, and an invalid form changes nothing. |
| WizardForms.TribalGovernmentClean | src/registrar/forms/application_wizard.py:196-213 | Passes exactly when the tribe is federally or state recognized. It fails with code `invalid` otherwise. |
| WizardForms.CleanIsElectionBoard | src/registrar/forms/application_wizard.py:234-243 | Valid exactly when an answer was given, and then it is that answer. A missing answer is `required`. |
| WizardForms.CleanZipcode | src/registrar/forms/application_wizard.py:279-288 | A valid result is the stripped input. |
| WizardForms.ZipcodeAcceptsExactlyUsShapes | src/registrar/forms/application_wizard.py:279-288 | The field accepts exactly inputs that strip to five digits or to five digits, a dash and four digits. Blank input is `required`. |
| WizardForms.FederalAgencyWithoutApplicationFails | src/registrar/forms/application_wizard.py:294-313 | As written, a selected agency with no request behind the form dereferences None. |
| WizardForms.CleanFederalAgency | src/registrar/forms/application_wizard.py:294-313 | Never dereferences None. The agency is required exactly when it is blank and the request is federal or absent. Otherwise the selection is returned as entered. |
| WizardForms.FederalAgencyCorrectionAgreesWithApplication | src/registrar/forms/application_wizard.py:294-313 | Whenever a request exists, the corrected validator gives the same result as the written one. |
| WizardFormSet.ShouldDelete | src/registrar/forms/application_wizard.py:389-391 | `should_delete` per formset: a blank website or alternative domain, and an other-contact marked for deletion or DELETE-flagged. It has no ensures. For websites and alternative domains its meaning is stated by `BlankEntriesAreDeleted`: deleted exactly when the entry strips to nothing (lines 389-391 and 431-433). For other contacts, the mark is the one `MarkForDeletion` sets (lines 712-716). |
| WizardFormSet.BlankEntriesAreDeleted | src/registrar/forms/application_wizard.py:389-391 | A website or alternative-domain entry is deleted exactly when its value strips to the empty string. |
| WizardFormSet.CreatedContactHasNoDeleteFlag | src/registrar/forms/application_wizard.py:718-723 | A contact created from a form carries every cleaned field except `DELETE`, and nothing else. |
| WizardFormSet.PreUpdate | src/registrar/forms/application_wizard.py:435-438 | `pre_update`: an alternative domain `d` writes `d.gov` into the row's `website` column, and any other formset copies the cleaned data onto the row (lines 79-82). It has no ensures. Its meaning is stated by `AlternativeDomainStoredWithGov`. |
| WizardFormSet.PreCreate | src/registrar/forms/application_wizard.py:440-445 | `pre_create`: an alternative domain `d` creates a row whose only column is `website` = `d.gov`, a website keeps its cleaned data (lines 84-86), and an other contact drops `DELETE` (lines 718-723). It has no ensures. Its meaning is stated by `AlternativeDomainStoredWithGov` and `CreatedContactHasNoDeleteFlag`. |
| WizardFormSet.OnFetch | src/registrar/forms/application_wizard.py:160-163 | One initial entry per row, in order. By default that entry is the row's fields. Alternative domains show the second-level label of the stored name. |
| WizardFormSet.AlternativeDomainStoredWithGov | src/registrar/forms/application_wizard.py:435-445 | An alternative domain entered as `d` is stored as `d.gov`, whether its row is updated or created, and is fetched back as the second-level label of `d.gov` (lines 160-163). When that label is `d` again, the fetched entry is exactly `{"alternative_domain": d}`. |
| WizardFormSet.ZipLongest | src/registrar/forms/application_wizard.py:127-128 | As many pairs as the longer side. Position `i` holds row `i` and form `i` where they exist, and the fill value beyond. |
| WizardFormSet.ZipLongestPairsEveryRow | src/registrar/forms/application_wizard.py:127-128 | The stored side of the pairs is the query, in order, with nothing added. |
| WizardFormSet.Decide | src/registrar/forms/application_wizard.py:129-158 | The branch `_to_database` takes for one (row, form) pair. Its ensures: a create happens only where no row is stored, and an update, delete or detach only where one is. `DecideFollowsHooks` states which branch is taken for which data. |
| WizardFormSet.DecideFollowsHooks | src/registrar/forms/application_wizard.py:127-158 | A stored row with non-empty data is unlinked exactly when `should_delete` accepts the data. It is detached rather than deleted, or replaced rather than updated, exactly when it is joined elsewhere. A stored row with empty data is skipped. A form without a row creates one exactly when its data is non-empty and not DELETE-flagged. |
| WizardFormSet.RunAccountsForEveryRow | src/registrar/forms/application_wizard.py:127-158 | Every stored row ends in exactly one place: linked, detached or deleted. No row is lost or counted twice, as a multiset equality. |
| WizardFormSet.SharedRowsAreNeverDeleted | src/registrar/forms/application_wizard.py:132-152 | A row joined elsewhere is never deleted, and only such rows are detached. |
| WizardFormSet.RowsWithoutFormsAreKept | src/registrar/forms/application_wizard.py:127-136 | Stored rows beyond the submitted forms stay linked, unchanged and in order. Submitting fewer forms deletes nothing. |
| WizardFormSet.RunOnlyAppends | src/registrar/forms/application_wizard.py:127-158 | Each list the loop builds (kept, detached, deleted, created) only grows from one iteration to the next. |
| WizardFormSet.RowFate | src/registrar/forms/application_wizard.py:132-152 | The stored row at any position ends where its branch says. A skipped row stays linked as it was. An updated row stays linked with the `pre_update` changes. Otherwise it is deleted, detached, or detached with a successor built by `pre_create`. |
| WizardFormSet.RowFateIsExclusive | src/registrar/forms/application_wizard.py:132-152 | With distinct row ids, each stored row is in exactly one of linked, detached or deleted. |
| WizardFormSet.IdOccursOnce | src/registrar/forms/application_wizard.py:127-158 | In rows with distinct ids, each id occurs exactly once. |
| WizardFormSet.DeletedFormsUnlinkEveryRow | src/registrar/forms/application_wizard.py:732-739 | A marked formset with a form for every row leaves nothing linked and creates nothing. |
| WizardFormSet.KeepsRowWithoutForm | src/registrar/forms/application_wizard.py:127-136 | A stored row with no form is appended, unchanged, to the kept rows. |
| WizardFormSet.TrailingRowsKept | src/registrar/forms/application_wizard.py:127-136 | A run of stored rows without forms ends the kept rows, in order. |
| WizardFormSet.JoinStore.SaveFormset | src/registrar/forms/application_wizard.py:98-158 | An invalid formset changes nothing. A valid one saves the request once. The linked rows become the kept rows followed by the created ones, with fresh ids. The detached and deleted rows are recorded. |
| WizardFormSet.JoinStore.Reconcile | src/registrar/forms/application_wizard.py:127-158 | The loop leaves the stored rows in the state the specification's run reaches after every pair. |
| WizardFormSet.JoinStore.ApplyPair | src/registrar/forms/application_wizard.py:129-158 | One iteration updates, removes, detaches or creates exactly the rows its action names, at the pair's position, and nothing else. |
| WizardFormSet.OtherContactsFormSet.MarkForDeletion | src/registrar/forms/application_wizard.py:732-739 | Marks the formset and every one of its forms, leaving their data and errors alone. |
| WizardFormSet.OtherContactsFormSet.CleanForms | src/registrar/forms/application_wizard.py:653-677 | One cleaned result per form, in order. Each is `{"DELETE": True}` for a marked or DELETE-flagged form and the form's data otherwise. Such a form loses exactly its field errors and keeps the other messages. Any other form keeps its errors. |
| ProfileSetup.ParseName | src/registrar/views/contact.py:102-105 | Every redirect type is recognised from its own string (`Parse` inverts `Name`). |
| ProfileSetup.NamesAreUrlSafe | src/registrar/views/contact.py:179-189 | The redirect strings need no URL escaping. |
| ProfileSetup.ContactKeyInjective | src/registrar/views/contact.py:39 | Different contacts are cached under different `contact:<pk>` keys. |
| ProfileSetup.ContactKeyIsNotViewNameKey | src/registrar/views/contact.py:53 | Caching a contact never overwrites the stored view name. |
| ProfileSetup.Adopt | src/registrar/views/contact.py:116-140 | Afterwards a type is always set. Without a parameter an existing type is kept, and with no type yet BACK_TO_SELF is set. With a parameter, the result is the type it names or TO_SPECIFIC_PAGE. |
| ProfileSetup.AdoptIdempotent | src/registrar/views/contact.py:116-140 | Dispatching the same request twice changes nothing more. |
| ProfileSetup.AdoptFollowsParameter | src/registrar/views/contact.py:129-140 | A recognised value is adopted whatever the current type. An unrecognised one selects TO_SPECIFIC_PAGE. |
| ProfileSetup.AfterPost | src/registrar/views/contact.py:210-220 | With neither button the type is unchanged. Save sets COMPLETE_SETUP. Submit without save sets TO_SPECIFIC_PAGE when a view name is stored and HOME otherwise. |
| ProfileSetup.SubmitFinishesSaveDoesNot | src/registrar/views/contact.py:210-232 | Submitting always finishes the setup. Saving never does. |
| ProfileSetup.SetupView.UpdateSessionWithContact | src/registrar/views/contact.py:49-54 | The session's `contact:<pk>` entry becomes the current contact. Nothing else changes. |
| ProfileSetup.SetupView.SetContact | src/registrar/views/contact.py:30-47 | The contact is the session-cached one when present, else the stored one. Afterwards the session caches it under its key. |
| ProfileSetup.SetupView.Dispatch | src/registrar/views/contact.py:110-142 | The type becomes `Adopt` of the old type and the parameter. An unrecognised value alone is stored as the view name to return to. |
| ProfileSetup.SetupView.RedirectLink | src/registrar/views/contact.py:144-190 | A link exists exactly when a type is set and its base path can be computed. Its query is exactly `redirect=<type>`. |
| ProfileSetup.SetupView.RedirectRoundTrip | src/registrar/views/contact.py:179-189 | Following the link's `redirect` parameter leads `dispatch` back to the same type. |
| ProfileSetup.SetupView.BasePath | src/registrar/views/contact.py:157-177 | The path that the redirect type selects before any query string is added. It has no ensures. Its meaning is stated by `RedirectFollowsType`. |
| ProfileSetup.SetupView.RedirectFollowsType | src/registrar/views/contact.py:157-177 | HOME goes home. BACK_TO_SELF and COMPLETE_SETUP go to this contact's setup page. TO_SPECIFIC_PAGE goes to the stored view, or home when it cannot be reversed, and it raises with no stored view. |
| ProfileSetup.SetupView.AddedContext | src/registrar/views/contact.py:244-252 | `confirm_changes` is added exactly for COMPLETE_SETUP. The email sublabel is always added. |
| ProfileSetup.SetupView.FormValid | src/registrar/views/contact.py:224-237 | The setup is marked finished for TO_SPECIFIC_PAGE and HOME and is never cleared. The cleaned data is copied onto the contact, which is re-cached, and the response is the redirect link. |
| ProfileSetup.SetupView.Post | src/registrar/views/contact.py:198-222 | On a valid post the type follows the button pressed (`AfterPost`). A valid post also adds the cleaned data to the contact loaded from the cache or the database, and its response is the redirect link, or an exception when that cannot be computed. The user's setup is marked finished, and the user saved once, exactly when a valid post leaves TO_SPECIFIC_PAGE or HOME. An invalid post keeps the type and the loaded contact and shows the form again. Either way the session caches the contact and nothing else in it changes. |
| DomainAdmin.DeleteOutcome | src/registrar/tests/test_admin.py:116-253 | The domain ends deleted exactly when it already was, or when it was deletable and the registry accepted. Only deletion gives an info message. Any other state is kept. |
| DomainAdmin.Next | src/registrar/tests/test_admin.py:80-114 | A state changes only when the registry accepts. Entering ON_HOLD needs a hold placed from a holdable state. Leaving ON_HOLD is a release, to READY with name servers and to DNS_NEEDED without, or a removal. |
| DomainAdmin.Released | src/registrar/tests/test_admin.py:80-114 | A released hold is READY exactly when name servers are configured, and DNS_NEEDED exactly when none are. |
| DomainAdmin.AfterAppend | src/registrar/tests/test_admin.py:80-253 | Running one more action is applying it after the others. |
| DomainAdmin.DeletedIsTerminal | src/registrar/tests/test_admin.py:195-253 | A deleted domain stays deleted whatever is done to it. |
| DomainAdmin.LeavingReadyPassesHold | src/registrar/tests/test_admin.py:80-193 | A ready domain that leaves READY is on hold at some step. |
| DomainAdmin.ReadyIsHeldBeforeDeletion | src/registrar/tests/test_admin.py:116-193 | A ready domain that ends deleted was on hold at some step before the deletion. |
| DomainAdmin.EnteringDeleted | src/registrar/tests/test_admin.py:116-193 | Only a removal from a deletable state enters DELETED. |
| DomainAdmin.NeverUnknown | src/registrar/tests/test_admin.py:80-253 | A domain in any state other than UNKNOWN never goes back to UNKNOWN. |
| DomainAdmin.DnsNeededOnlyAfterBareRelease | src/registrar/tests/test_admin.py:80-253 | A domain that starts ready, on hold or deleted needs DNS again only after some accepted release with no name servers. |
| DomainAdmin.DeletingReadyIsRefused | src/registrar/tests/test_admin.py:155-193 | Deleting a ready domain is refused with a message naming `dns_needed` and `on_hold`, and it stays ready. |
| DomainAdmin.HoldThenDeleteTwice | src/registrar/tests/test_admin.py:195-253 | A held domain deletes with a success message. Deleting it again reports "This domain is already deleted" and it stays deleted. |
| DomainAdmin.Domain.PlaceClientHold | src/registrar/tests/test_admin.py:80-114 | Moves to the state `Next` gives. Reports success exactly for a holdable state and an accepting registry. |
| DomainAdmin.Domain.RemoveClientHold | src/registrar/tests/test_admin.py:80-114 | Moves to the state `Next` gives. Reports success exactly for a held domain and an accepting registry. A successful release leaves it ready exactly when name servers are configured. |
| DomainAdmin.DoDeleteDomain | src/registrar/tests/test_admin.py:116-253 | The new state and the message are those of `DeleteOutcome`. |
| DomainAdmin.DeleteHeldDomainTwice | src/registrar/tests/test_admin.py:195-253 | For `city.gov`: the first removal says "Domain city.gov has been deleted. Thanks!", the second says "This domain is already deleted", and it ends deleted. |
| DomainAdmin.StatusesListsEachOnce | src/registrar/tests/test_admin.py:280-306 | The status list holds every status exactly once. |
| DomainAdmin.Transitions | src/registrar/tests/test_admin.py:448-573 | No status moves to itself, and none moves back to STARTED. |
| DomainAdmin.Review | src/registrar/tests/test_admin.py:448-820 | A save is refused exactly for a restricted creator or for leaving APPROVED with an active domain. Otherwise it moves exactly along an allowed transition, or keeps the same status. A move unlinks exactly when leaving APPROVED and links exactly when entering it. It restricts exactly when entering INELIGIBLE. |
| DomainAdmin.NoticeRules | src/registrar/tests/test_admin.py:448-573 | Entering SUBMITTED notifies only from STARTED or WITHDRAWN. Entering IN_REVIEW, ACTION_NEEDED or INELIGIBLE sends nothing. APPROVED, REJECTED and WITHDRAWN each send their own notice. |
| DomainAdmin.NoticeOf | src/registrar/tests/test_admin.py:448-573 | Which email a move from one status to another sends. It has no ensures. Its meaning is stated by `NoticeRules`: a move to SUBMITTED sends "received" exactly from STARTED or WITHDRAWN, a move to IN_REVIEW, ACTION_NEEDED or INELIGIBLE sends nothing, and APPROVED and REJECTED each send their own email. |
| DomainAdmin.RestrictedCreatorBlocksEverySave | src/registrar/tests/test_admin.py:701-724 | With a restricted creator every save is refused with the restricted-creator error. |
| DomainAdmin.LeavingApproved | src/registrar/tests/test_admin.py:747-820 | Leaving APPROVED is refused while the domain is active. Otherwise it unlinks the approved domain. |
| DomainAdmin.Save | src/registrar/tests/test_admin.py:415-428 | A save sends at most one notification and only appends to the log. A restricted creator freezes everything. |
| DomainAdmin.RestrictionFreezesRequest | src/registrar/tests/test_admin.py:701-724 | Once restricted, no sequence of saves changes the request or sends anything. |
| DomainAdmin.IneligibleIsFinal | src/registrar/tests/test_admin.py:597-617 | Declaring a request ineligible restricts its creator. From then on the request stays ineligible and nothing more is sent. |
| DomainAdmin.ReplayOnlyAppends | src/registrar/tests/test_admin.py:448-573 | Notifications are only ever appended across saves. |
| DomainAdmin.ReplayConcat | src/registrar/tests/test_admin.py:448-573 | A sequence of saves split anywhere replays in two parts. |
| DomainAdmin.SubmissionScenario | src/registrar/tests/test_admin.py:448-496 | Submit, withdraw, resubmit, then review and back to submitted: exactly the received, withdrawn and received notices. |
| DomainAdmin.SubmitWithdrawResubmit | src/registrar/tests/test_admin.py:448-496 | The first four saves send received, withdrawn and received, and leave the request in review. |
| DomainAdmin.BackAndForthSendsNothing | src/registrar/tests/test_admin.py:478-496 | Moving between review, action needed and submitted sends nothing. |
| DomainAdmin.ApproveRejectApprove | src/registrar/tests/test_admin.py:498-522 | Approve, reject, approve: three notices, one per decision. |
| DomainAdmin.RejectApproveReject | src/registrar/tests/test_admin.py:523-547 | Reject, approve, reject: three notices, one per decision. |
| DomainAdmin.WithdrawResubmitWithdraw | src/registrar/tests/test_admin.py:548-573 | Withdraw, resubmit, withdraw: one notice each time. |
| DomainAdmin.AllowedFrom | src/registrar/tests/test_admin.py:272-306 | A status is offered exactly when it is a candidate the status may move to. There are at most as many as the candidates. |
| DomainAdmin.AllowedFromKeepsOrder | src/registrar/tests/test_admin.py:272-306 | The offered statuses keep the candidates' order, and candidates without repeats give none twice. |
| DomainAdmin.Choices | src/registrar/tests/test_admin.py:272-306 | With no saved request, every status. Otherwise the current status followed by those it may move to. |
| DomainAdmin.ChoicePairs | src/registrar/tests/test_admin.py:272-306 | One (value, label) pair per choice, in order. |
| DomainAdmin.ChoicesScenarios | src/registrar/tests/test_admin.py:272-306 | A started request offers exactly ("started", "Started") and ("submitted", "Submitted"). No instance, or an unsaved ineligible one, offers every status. |
| DomainAdmin.StartedMayOnlyBeSubmitted | src/registrar/tests/test_admin.py:272-279 | The choices of a saved started request are started then submitted. |
| DomainAdmin.NoneAllowed | src/registrar/tests/test_admin.py:272-279 | Candidates none of which may follow the status leave no choice. |
| DomainAdmin.Application.SaveModel | src/registrar/tests/test_admin.py:448-820 | The verdict is `Review` of the old state. The status changes only on a move, and the creator is restricted only on entering INELIGIBLE. Entering APPROVED creates and links a fresh domain with its information row. Leaving APPROVED deletes both and clears the link. The move's notice, if any, is appended to the mail log for the submitter, and the approved-domain invariant is kept. |
| DomainAdmin.NewRequest | src/registrar/tests/test_admin.py:423-428 | A fresh `city.gov` request with an unrestricted creator, at the given status, with no approved domain. |
| DomainAdmin.ApproveOrDecline | src/registrar/tests/test_admin.py:575-617 | Approval links a domain named `city.gov` and notifies. Declaring ineligible restricts the creator and sends nothing. |
| DomainAdmin.SaveForRestrictedCreator | src/registrar/tests/test_admin.py:701-724 | The save fails with "This action is not permitted for applications with a restricted creator." The status stays IN_REVIEW and nothing is sent. |
| DomainAdmin.RevertApproval | src/registrar/tests/test_admin.py:747-820 | With an active domain the save fails with "This action is not permitted. The domain is already active." Otherwise the approved domain and its information row are deleted and unlinked. |
| AdminHelpers.CoercedFkField | src/registrar/tests/test_admin.py:1601-1614 | The result is an error for a missing first name or an empty shorthand, and a single when the last name is missing. A pair holds the given names. |
| AdminHelpers.NoSeparatorIff | src/registrar/tests/test_admin.py:1601-1614 | With both names present, the helper fails to split exactly when the first name lacks the shorthand. |
| AdminHelpers.QualifiedFirstName | src/registrar/tests/test_admin.py:1601-1614 | A first name `<prefix>:<field>` yields the pair exactly when `<field>` is the field checked. |
| Strings.StripBlankIff | src/registrar/forms/application_wizard.py:389-391 | `strip()` empties a string exactly when all of it is whitespace. |
| Strings.SplitHasSecondPieceIff | src/registrar/tests/test_admin.py:1601-1614 | A split yields a second piece exactly when the separator occurs. |
| Migration.Count | src/registrar/tests/test_transition_domain_migrations.py:89-97 | A filter's length is at most the table size, and zero exactly when the name is absent. |
| Migration.InvitedIff | src/registrar/tests/test_transition_domain_migrations.py:93-97 | A row is invited exactly when some invitation has its lowercased username and its domain. |
| Migration.NeverMissingAndDuplicate | src/registrar/tests/test_transition_domain_migrations.py:99-102 | No row is both missing and duplicated. Missing means absent from the domains, and information missing means absent from the information rows. |
| Migration.Fails | src/registrar/tests/test_transition_domain_migrations.py:99-106 | Whether a staging row is listed by one of the four checks: no domain with its name, more than one, no information row, or no invitation for its lower-cased username. It has no ensures. Its meaning is stated by `NeverMissingAndDuplicate`, `InvitedIff` and `ListedIff`. |
| Migration.ListedIff | src/registrar/tests/test_transition_domain_migrations.py:85-106 | A name is listed exactly when some row carries it and fails the check. |
| Migration.MissingPlusDuplicateAtMostRows | src/registrar/tests/test_transition_domain_migrations.py:85-111 | The missing and duplicate lists together hold at most one entry per row. |
| Migration.Listed | src/registrar/tests/test_transition_domain_migrations.py:85-111 | Each discrepancy list is at most as long as the staging table. |
| Migration.LoadIsIdempotent | src/registrar/tests/test_transition_domain_migrations.py:43-49 | Loading the same export twice adds no staging rows. |
| Migration.Upsert | src/registrar/tests/test_transition_domain_migrations.py:43-49 | Loading keeps the existing rows first and holds exactly the old and the incoming rows. |
| Migration.Load | src/registrar/tests/test_transition_domain_migrations.py:43-49 | `load_transition_domain` changes only the staging table; every other table is unchanged. `LoadIsIdempotent` states that a second load of the same export adds nothing. |
| Migration.TransferRow | src/registrar/tests/test_transition_domain_migrations.py:51-52 | Transferring one staging row leaves the staging, information and user tables unchanged, and afterwards a domain with the row's name exists. |
| Migration.TransferRows | src/registrar/tests/test_transition_domain_migrations.py:51-52 | Transferring a list of staging rows leaves the staging, information and user tables unchanged. `TransferRowsCoverRows` states that every row then has a domain and that distinct names stay distinct. |
| Migration.Transfer | src/registrar/tests/test_transition_domain_migrations.py:51-52 | `transfer_transition_domains_to_domains` leaves the staging, information and user tables unchanged. `TransferLeavesOneDomainPerName` states that each staging row then has exactly one domain. |
| Migration.TransferLeavesOneDomainPerName | src/registrar/tests/test_transition_domain_migrations.py:201-225 | After the transfer, every staging row has exactly one domain, so nothing is missing or duplicated. |
| Migration.TransferRowsCoverRows | src/registrar/tests/test_transition_domain_migrations.py:201-225 | The transfer keeps domain names distinct and creates one for every row. |
| Migration.Retrieve | src/registrar/tests/test_transition_domain_migrations.py:233-236 | `on_each_login` for one email: every invitation for that email is marked retrieved, every other invitation is unchanged, and existing information rows are kept as a prefix. `RetrieveAddsPickedDomains` states which information rows are added. |
| Migration.Login | src/registrar/tests/test_transition_domain_migrations.py:233-236 | One pass of the login loop: the user exists afterwards, and the staging and domain tables and the number of invitations are unchanged. |
| Migration.Logins | src/registrar/tests/test_transition_domain_migrations.py:233-236 | The login loop over a list of emails leaves the staging and domain tables and the number of invitations unchanged. `LoginsPickUp` states what it picks up. |
| Migration.RetrieveAddsPickedDomains | src/registrar/tests/test_transition_domain_migrations.py:233-236 | A login adds exactly the domains of its invitations not yet picked up, never twice. |
| Migration.LoginsPickUp | src/registrar/tests/test_transition_domain_migrations.py:233-236 | After the logins, exactly the invitations of logged-in emails are picked up. The information rows are, once each, their domains. |
| Migration.EveryInvitedDomainInformed | src/registrar/tests/test_transition_domain_migrations.py:227-257 | After every invited user logs in, all invitations are picked up. The information rows are, once each, exactly the invited domains. |
| Migration.LoginsKeepDomains | src/registrar/tests/test_transition_domain_migrations.py:227-257 | Logins change neither the staging rows, the domains, the invitation count nor the missing and duplicate lists. |
| Migration.SameInvitationsSameMissing | src/registrar/tests/test_transition_domain_migrations.py:93-106 | Invitations that agree on emails and domains give the same missing-invitation list. |
| Migration.LoadScenario | src/registrar/tests/test_transition_domain_migrations.py:176-199 | After loading: 8 rows, nothing else, and every row misses its domain, information and invitation. |
| Migration.TransferScenario | src/registrar/tests/test_transition_domain_migrations.py:201-225 | After the transfer: 4 domains, 7 invitations, none missing or duplicated, 8 missing informations and 1 missing invitation. |
| Migration.MasterScenario | src/registrar/tests/test_transition_domain_migrations.py:142-174 | Loading then transferring gives the transfer's counts. |
| Migration.LoginScenario | src/registrar/tests/test_transition_domain_migrations.py:227-257 | After every invited user logs in: 3 information rows, 1 missing information, other counts as after the transfer. |
| Migration.SendScenario | src/registrar/tests/test_transition_domain_migrations.py:259-296 | The command reports "Found 1 transition domains" for the test user, and "Found 2 transition domains" for the test user and Agustina. |
| Migration.Database.LoadTransitionDomains | src/registrar/tests/test_transition_domain_migrations.py:43-49 | The tables become `Load` of the old tables. |
| Migration.Database.TransferDomains | src/registrar/tests/test_transition_domain_migrations.py:51-52 | The tables become `Transfer` of the old tables. |
| Migration.Database.LogIn | src/registrar/tests/test_transition_domain_migrations.py:234-236 | The tables become `Login` of the old tables. |
| Migration.Database.SimulateLogins | src/registrar/tests/test_transition_domain_migrations.py:233-236 | The loop leaves the tables as logging in every invitation's email in turn would. |
| Migration.Database.CompareTables | src/registrar/tests/test_transition_domain_migrations.py:66-140 | The four lists are exactly the rows failing each check, in order. The totals are the table sizes. |
| Migration.Database.SendDomainInvitations | src/registrar/tests/test_transition_domain_migrations.py:259-296 | Reports "Found <n> transition domains", where n is the number of staging rows whose username is one of the given emails. |
| Migration.MatchingCountsRows | src/registrar/tests/test_transition_domain_migrations.py:259-296 | The running count equals the number of staging rows whose username is one of the emails. |
| Migration.MigrateLegacyExport | src/registrar/tests/test_transition_domain_migrations.py:142-257 | The imperative run on a fresh database gives the transfer counts (8,4,0,7; 0,0,8,1) and then the login counts (8,4,3,7; 0,0,1,1). |

## Left out

- Login.gov authentication, permission decorators, waffle feature flags, CSRF protection,
  the `super().dispatch` and template rendering are left out. They are framework glue
  around the modelled logic.
- `reverse`, `Domain.sld`/`DraftDomain` validation, and the contact setup page's URL are
  parameters (oracles). Their own behaviour is not modelled.
- Email delivery is modelled as an append to a log of (recipient, notice). The message
  bodies, SES and boto3 are left out.
- The registry (EPP) is an oracle reply, accepted or refused, for each command.
  The number of name servers the registry reports when a hold is released is a parameter.
- The domain and request models (`Domain`, `DomainApplication`) are not part of this model.
  The request-status table is rebuilt from the admin tests. The tests move IN_REVIEW and
  ACTION_NEEDED back to SUBMITTED, so those moves are allowed. The admin tests pin only
  part of the domain-state machine:
  - a READY domain is held;
  - the hold is released back to READY;
  - a held domain is deleted;
  - deletion is allowed only from DNS_NEEDED and ON_HOLD.
  The two lines below name the domain transitions the model assumes beyond those.
- DomainAdmin.Holdable: placing a hold on a DNS_NEEDED domain is an assumption of the
  model. The tests only hold READY domains.
- DomainAdmin.Released: sending a released hold with no name servers to DNS_NEEDED is an
  assumption of the model. The only release test ends in READY, and it is skipped.
- DomainAdmin.ReadyIsHeldBeforeDeletion: does not promise that the removal itself happens
  from ON_HOLD. A hold released with no name servers leaves DNS_NEEDED, and removal is
  allowed from there.
- ProfileSetup.SetupView.FormValid: the helper `to_database` that `form_valid` calls
  (`registrar.models.utility.generic_helper`) is not part of this model. It is modelled
  as adding the cleaned data to the contact's fields. The write of the contact to the
  database is not modelled, so the stored contact (`stored` in `Post`) never changes.
- DomainAdmin.Application.SaveModel: approval creates the domain in the default UNKNOWN
  state. No test pins a different state.
- DomainAdmin.StateValue: only `ready` is pinned by the tests. The other column values
  follow the state names.
- `save_model` with `change=False` for an unrestricted creator is left out. A restricted
  creator's save is refused whatever `change` is (test_admin.py:715-724), and
  `SaveForRestrictedCreator` stands for that `change=False` call.
- The rejection reason, the `display_restricted_warning` message text and the change-view
  read-only fields are left out.
- DomainAdmin.Application.Valid: the model never holds an APPROVED request without an
  approved domain. The source briefly does: test_admin.py:755-759 creates an APPROVED
  request first and links its domain afterwards. Every save the model makes starts from a
  request that already has its domain.
- The code of the `load_transition_domain`, `transfer_transition_domains_to_domains`,
  `send_domain_invitations` commands and of `User.on_each_login` is not part of this model.
  Their effect is modelled from the counts the migration tests pin.
- The legacy test export files are not part of this model. An eight-row export over four
  domains, consistent with every pinned count, stands in for them. Its `anomaly.gov` row
  has no username.
- Migration.Invites: skipping a row whose lowercased username already belongs to a user is
  an assumption of the model. No test pins it, because no user exists when the transfer
  runs in the tested scenarios.
- The roles, user fields and other side effects of a login beyond the retrieved flag and
  the information row are left out.
- Django field cleaning (`CharField`, `EmailField`, `URLField`, `PhoneNumberField`, max
  lengths) is left out, apart from the whitespace stripping and the ZIP pattern.
- `has_more_than_one_join` is an oracle: a `shared` flag on each stored formset row, and
  the `sharedVia` relations of a contact.
- Strings.IsSpace: only ASCII whitespace counts. Python's `strip` also removes Unicode
  whitespace.
- Strings.Lower: only ASCII letters are lower-cased.
- Database ids, `created_at` ordering and transactions are abstracted. Rows are linked in
  query order, and created rows take increasing fresh ids.

## Findings

| source | as written | input that shows it | evidently intended | confidence | as-written member | corrected member |
|---|---|---|---|---|---|---|
| src/registrar/forms/application_wizard.py:294-313 | With an agency selected, `clean_federal_agency` calls `self.application.is_federal()` at line 306, even when the form has no request (`self.application` is None). | A form with no request and agency "General Services Administration" | With no request the comments ask for the agency by default: a blank one is required, and a selected one is returned. | not executed | WizardForms.FederalAgencyWithoutApplicationFails | WizardForms.CleanFederalAgency |
