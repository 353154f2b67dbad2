/**
 * The `useTemplates` hook (src/hooks/useTemplates.ts): local React state holding the template list
 * and the selected template's id. `generateId()` and `new Date()` are parameters; the initial demo
 * data is the constructor's argument.
 */
module TemplatesHook {
  import opened Wrappers
  import opened Types
  import opened ClientLists

  class TemplatesState {
    var templates: seq<EmailTemplate>
    var selectedTemplate: Option<string>

    constructor(initial: seq<EmailTemplate>)
      ensures templates == initial && selectedTemplate == None
    {
      templates := initial;
      selectedTemplate := None;
    }

    /** The exposed `setTemplates`. */
    method SetTemplates(ts: seq<EmailTemplate>)
      modifies this
      ensures templates == ts && selectedTemplate == old(selectedTemplate)
    {
      templates := ts;
    }

    /** The exposed `setSelectedTemplate`. */
    method SetSelectedTemplate(id: Option<string>)
      modifies this
      ensures selectedTemplate == id && templates == old(templates)
    {
      selectedTemplate := id;
    }

    /** `addTemplate`: one new template at the end. */
    method AddTemplate(input: TemplateInput, id: string, now: int)
      modifies this
      ensures templates == old(templates) + [NewTemplate(input, id, now)]
      ensures selectedTemplate == old(selectedTemplate)
    {
      templates := templates + [NewTemplate(input, id, now)];
    }

    /**
     * `editTemplate`: the supplied fields override those of the templates with that id; length,
     * order and every other template stay, also when no template has that id.
     */
    method EditTemplate(id: string, patch: TemplatePatch)
      modifies this
      ensures templates == PatchTemplates(old(templates), id, patch)
      ensures |templates| == |old(templates)|
      ensures selectedTemplate == old(selectedTemplate)
    {
      templates := PatchTemplates(templates, id, patch);
    }

    /** `deleteTemplate`: the template goes; the selection is cleared exactly when it was that id. */
    method DeleteTemplate(id: string)
      modifies this
      ensures templates == WithoutTemplate(old(templates), id)
      ensures selectedTemplate == ClearIfSelected(old(selectedTemplate), id)
      ensures selectedTemplate.None? <==> old(selectedTemplate).None? || old(selectedTemplate) == Some(id)
    {
      templates := WithoutTemplate(templates, id);
      selectedTemplate := ClearIfSelected(selectedTemplate, id);
    }
  }
}
