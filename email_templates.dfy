/**
 * The template view (src/components/templates/EmailTemplates.tsx): clicking a card toggles the
 * template selection, and the add and edit dialogs share one form whose state the handlers update.
 * Opening and closing the dialogs, toasts and rendering are not modelled beyond the two open flags.
 */
module EmailTemplatesView {
  import opened Wrappers
  import opened Types

  /** Clicking a template card: the selected card becomes unselected, any other card becomes the selection. */
  function SelectOnClick(selected: Option<string>, id: string): (r: Option<string>)
    ensures r.None? <==> selected == Some(id)
    ensures r.Some? ==> r == Some(id)
  {
    if selected == Some(id) then None else Some(id)
  }

  /** Clicking the same card twice gives back the selection, when that card or nothing was selected. */
  lemma ClickTwice(selected: Option<string>, id: string)
    requires selected.None? || selected == Some(id)
    ensures SelectOnClick(SelectOnClick(selected, id), id) == selected
  {
  }

  /** The dialog form. */
  datatype TemplateForm = TemplateForm(name: string, subject: string, body: string)

  const EmptyForm: TemplateForm := TemplateForm("", "", "")

  /** Every field filled in (`formData.name && formData.subject && formData.body`). */
  predicate Complete(f: TemplateForm)
  {
    f.name != "" && f.subject != "" && f.body != ""
  }

  function FormInput(f: TemplateForm): (t: TemplateInput)
    ensures t.name == f.name && t.subject == f.subject && t.body == f.body
  {
    TemplateInput(f.name, f.subject, f.body)
  }

  /** The form filled from a template by `openEditDialog`. */
  function FormOf(t: EmailTemplate): (f: TemplateForm)
    ensures f.name == t.name && f.subject == t.subject && f.body == t.body
  {
    TemplateForm(t.name, t.subject, t.body)
  }

  /** The state behind the dialogs. */
  class TemplateEditor {
    var formData: TemplateForm
    var editingId: Option<string>
    var isAddOpen: bool
    var isEditOpen: bool

    constructor()
      ensures formData == EmptyForm && editingId.None? && !isAddOpen && !isEditOpen
    {
      formData := EmptyForm;
      editingId := None;
      isAddOpen := false;
      isEditOpen := false;
    }

    /** Typing into the form. */
    method SetFormData(f: TemplateForm)
      modifies this
      ensures formData == f
      ensures editingId == old(editingId) && isAddOpen == old(isAddOpen) && isEditOpen == old(isEditOpen)
    {
      formData := f;
    }

    /**
     * `handleAdd`: with a field empty nothing is added and nothing changes; otherwise
     * `onAddTemplate` receives the form, the form is cleared and the add dialog closes.
     */
    method HandleAdd() returns (added: Option<TemplateInput>)
      modifies this
      ensures added.Some? <==> Complete(old(formData))
      ensures added.Some? ==> added.value == FormInput(old(formData))
      ensures added.Some? ==> formData == EmptyForm && !isAddOpen
      ensures added.None? ==> formData == old(formData) && isAddOpen == old(isAddOpen)
      ensures editingId == old(editingId) && isEditOpen == old(isEditOpen)
    {
      if !Complete(formData) {
        return None;
      }
      added := Some(FormInput(formData));
      formData := EmptyForm;
      isAddOpen := false;
    }

    /**
     * `handleEdit`: also refuses while no template is being edited (an empty id counts as none);
     * otherwise `onEditTemplate` receives the id and the form, and the form, the id and the edit
     * dialog are reset.
     */
    method HandleEdit() returns (edited: Option<(string, TemplateInput)>)
      modifies this
      ensures edited.Some? <==> Truthy(old(editingId)) && Complete(old(formData))
      ensures edited.Some? ==> edited.value == (old(editingId).value, FormInput(old(formData)))
      ensures edited.Some? ==> formData == EmptyForm && editingId.None? && !isEditOpen
      ensures edited.None? ==> formData == old(formData) && editingId == old(editingId) && isEditOpen == old(isEditOpen)
      ensures isAddOpen == old(isAddOpen)
    {
      if !Truthy(editingId) || !Complete(formData) {
        return None;
      }
      edited := Some((editingId.value, FormInput(formData)));
      formData := EmptyForm;
      editingId := None;
      isEditOpen := false;
    }

    /** `openEditDialog`: the template's id is being edited and its fields fill the form. */
    method OpenEditDialog(t: EmailTemplate)
      modifies this
      ensures editingId == Some(t.id) && formData == FormOf(t) && isEditOpen
      ensures isAddOpen == old(isAddOpen)
    {
      editingId := Some(t.id);
      formData := FormOf(t);
      isEditOpen := true;
    }
  }
}
