/** The basket create/edit dialog: its prefilled field, the dispatch of a
    submission to an update or a create request, the pending flag around
    the submission, the success transition, and the title and button text.
    The two mutations are foreign calls; a submission is modelled as the
    request value it hands to one of them, and the mutation's success
    callback as an explicit transition. */
module BasketForm {
  import opened Maybes
  import opened PortfolioTypes

  /** The dialog's state: whether it is open (owned by the parent screen),
      whether a submission is pending, and the basket-name field. */
  datatype Dialog = Dialog(open: bool, pending: bool, field: string)

  /** The request a submission hands to a mutation. */
  datatype Request =
    | Create(basketName: string)
    | Update(id: string, basketName: string)

  // ---------------------------------------------------------------------
  // Field value
  // ---------------------------------------------------------------------

  /** `editPayload?.basketName || ''`: the edited basket's name, or empty
      when creating. */
  function DefaultField(edit: Maybe<Basket>): (f: string)
    ensures edit.Just? ==> f == edit.value.basketName
    ensures edit.Nothing? ==> f == ""
  {
    match edit
    case Nothing => ""
    case Just(b) => if b.basketName != "" then b.basketName else ""
  }

  /** The prefill effect: when an edit payload is supplied, the field takes
      its basket name; otherwise the field is left as it is. */
  function Prefill(edit: Maybe<Basket>, d: Dialog): (r: Dialog)
    ensures edit.Just? ==> r.field == edit.value.basketName
    ensures edit.Nothing? ==> r == d
    ensures r.open == d.open && r.pending == d.pending
  {
    match edit
    case Nothing => d
    case Just(b) => d.(field := b.basketName)
  }

  /** The form when the dialog component mounts: the default value read
      once, then the prefill effect's first run. The component stays
      mounted while the dialog is closed, so this is not re-run on opening. */
  function MountForm(edit: Maybe<Basket>, open: bool): (d: Dialog)
    ensures d.field == DefaultField(edit)
    ensures !d.pending && d.open == open
  {
    Prefill(edit, Dialog(open, false, DefaultField(edit)))
  }

  /** The parent's open flag being set while the edit payload stays the
      same (the dialog's own dismissal, or the parent's Create Basket
      button): the field and pending flag are kept. */
  function SetOpen(d: Dialog, open: bool): (r: Dialog)
    ensures r.open == open
    ensures r.field == d.field && r.pending == d.pending
  {
    d.(open := open)
  }

  /** While the edit payload is unchanged, a dialog dismissed without a
      successful submission reopens with the text that was in its field,
      and one reopened after a success shows an empty field; an Edit click
      with a basket instead refills the field with that basket's name. */
  lemma ReopenKeepsField(d: Dialog, edit: Maybe<Basket>, name: string, b: Basket)
    ensures SetOpen(SetOpen(d, false), true).field == d.field
    ensures SetOpen(Succeed(Submit(edit, name, d).after), true).field == ""
    ensures EditClicked(Host(edit, Succeed(Submit(edit, name, d).after)), b).dialog.field == b.basketName
  {
  }

  // ---------------------------------------------------------------------
  // The parent's buttons
  // ---------------------------------------------------------------------

  /** The parent screen's side of the dialog: the edit payload it passes
      down, and the dialog. */
  datatype Host = Host(edit: Maybe<Basket>, dialog: Dialog)

  /** A row's Edit action: the payload becomes that basket and the dialog
      opens; the changed payload re-runs the prefill effect, which puts the
      basket's name in the field. */
  function EditClicked(h: Host, b: Basket): (r: Host)
    ensures r.edit == Just(b)
    ensures r.dialog.open && r.dialog.field == b.basketName
    ensures r.dialog.pending == h.dialog.pending
  {
    Host(Just(b), Prefill(Just(b), SetOpen(h.dialog, true)))
  }

  /** The Create Basket button: it only opens the dialog; the edit payload
      is left as it was, and so is the field. */
  function CreateClicked(h: Host): (r: Host)
    ensures r.edit == h.edit
    ensures r.dialog.open && r.dialog.field == h.dialog.field
    ensures r.dialog.pending == h.dialog.pending
  {
    h.(dialog := SetOpen(h.dialog, true))
  }

  /** The dialog's own dismissal: it closes, and the payload and field
      stay. */
  function Dismissed(h: Host): (r: Host)
    ensures r.edit == h.edit && !r.dialog.open
    ensures r.dialog.field == h.dialog.field && r.dialog.pending == h.dialog.pending
  {
    h.(dialog := SetOpen(h.dialog, false))
  }

  /** Because nothing clears the payload, a Create Basket click after an
      Edit that was dismissed reopens the dialog in edit mode: the title
      says edit, the field holds the basket's name, and a submission
      updates that basket rather than creating one. */
  lemma CreateAfterEditStillEdits(h: Host, b: Basket, name: string)
    ensures var r := CreateClicked(Dismissed(EditClicked(h, b)));
            && Title(r.edit) == "Edit Basket"
            && r.dialog.field == b.basketName
            && Submit(r.edit, name, r.dialog).request == Update(b.id, name)
  {
  }

  // ---------------------------------------------------------------------
  // Submission
  // ---------------------------------------------------------------------

  /** Which mutation a submission of `name` calls: an update of the edited
      basket when there is an edit payload, a create otherwise. */
  function Dispatch(edit: Maybe<Basket>, name: string): (q: Request)
    ensures q.Update? <==> edit.Just?
    ensures q.basketName == name
    ensures q.Update? ==> q.id == edit.value.id
  {
    match edit
    case Just(b) => Update(b.id, name)
    case Nothing => Create(name)
  }

  /** What one run of the submit handler does: the dialog while the
      request is being issued, the dialog once the handler returns, and the
      one request it issued. */
  datatype Submission = Submission(during: Dialog, after: Dialog, request: Request)

  /** The submit handler: pending is raised, the request dispatched, and
      pending lowered before the handler returns, on both paths; the
      handler itself neither closes the dialog nor clears the field. */
  function Submit(edit: Maybe<Basket>, name: string, d: Dialog): (s: Submission)
    ensures s.during.pending && !s.after.pending
    ensures s.during.open == s.after.open == d.open
    ensures s.during.field == s.after.field == d.field
    ensures s.request == Dispatch(edit, name)
  {
    var raised := d.(pending := true);
    Submission(raised, raised.(pending := false), Dispatch(edit, name))
  }

  /** The mutation's success callback: the dialog closes and the form is
      reset to an empty basket name. */
  function Succeed(d: Dialog): (r: Dialog)
    ensures !r.open && r.field == ""
    ensures r.pending == d.pending
  {
    d.(open := false, field := "")
  }

  /** A submission that succeeds leaves the dialog closed, idle and empty,
      whatever it started from and on either path. */
  lemma SubmitThenSucceed(edit: Maybe<Basket>, name: string, d: Dialog)
    ensures Succeed(Submit(edit, name, d).after) == Dialog(false, false, "")
  {
  }

  /** With an edit payload the submission issues exactly an update of that
      basket with the submitted name; without one, exactly a create. */
  lemma SubmitRequest(edit: Maybe<Basket>, name: string, d: Dialog)
    ensures edit.Just? ==> Submit(edit, name, d).request == Update(edit.value.id, name)
    ensures edit.Nothing? ==> Submit(edit, name, d).request == Create(name)
  {
  }

  // ---------------------------------------------------------------------
  // Derived text
  // ---------------------------------------------------------------------

  /** The dialog title. */
  function Title(edit: Maybe<Basket>): (t: string)
    ensures t == "Edit Basket" <==> edit.Just?
    ensures t == "Create Basket" <==> edit.Nothing?
  {
    if edit.Just? then "Edit Basket" else "Create Basket"
  }

  /** The submit button's text for (editing, pending). */
  function ButtonLabel(editing: bool, pending: bool): (t: string)
    ensures editing && pending <==> t == "Updating..."
    ensures editing && !pending <==> t == "Update"
    ensures !editing && pending <==> t == "Creating..."
    ensures !editing && !pending <==> t == "Create Basket"
  {
    if editing then (if pending then "Updating..." else "Update")
    else (if pending then "Creating..." else "Create Basket")
  }

  /** The submit button is disabled exactly while a submission is pending. */
  function ButtonDisabled(d: Dialog): (disabled: bool)
    ensures disabled <==> d.pending
  {
    d.pending
  }

  /** Reads the (editing, pending) mode back from a button text. */
  function ModeOfLabel(t: string): Maybe<(bool, bool)> {
    if t == "Updating..." then Just((true, true))
    else if t == "Update" then Just((true, false))
    else if t == "Creating..." then Just((false, true))
    else if t == "Create Basket" then Just((false, false))
    else Nothing
  }

  /** The button text tells the mode apart: each of the four modes has its
      own text, and the text is read back to the mode it came from. */
  lemma ButtonLabelRoundTrip(editing: bool, pending: bool)
    ensures ModeOfLabel(ButtonLabel(editing, pending)) == Just((editing, pending))
  {
  }

  /** Title and button agree on the mode: the title says edit exactly when
      the button offers an update. */
  lemma TitleAgreesWithButton(edit: Maybe<Basket>, pending: bool)
    ensures Title(edit) == "Edit Basket" <==>
              ButtonLabel(edit.Just?, pending) in {"Update", "Updating..."}
  {
  }

  /** During a submission the button is disabled and shows the in-progress
      text; once the handler returns it is enabled again with the idle text. */
  lemma ButtonAroundSubmit(edit: Maybe<Basket>, name: string, d: Dialog)
    ensures var s := Submit(edit, name, d);
            ButtonDisabled(s.during) && !ButtonDisabled(s.after)
            && ButtonLabel(edit.Just?, s.during.pending) == (if edit.Just? then "Updating..." else "Creating...")
            && ButtonLabel(edit.Just?, s.after.pending) == (if edit.Just? then "Update" else "Create Basket")
  {
  }
}
