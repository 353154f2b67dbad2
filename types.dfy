/** The client-side entity shapes (`Contact`, `EmailTemplate` and the inputs the UI builds). Dates are epoch milliseconds. */
module Types {
  import opened Wrappers

  datatype Status = New | Sent | Opened | Replied | Bounced

  datatype Contact = Contact(
    id: string,
    companyName: string,
    email: string,
    contactPerson: Option<string>,
    phone: Option<string>,
    status: Status,
    lastContacted: Option<int>,
    notes: Option<string>,
    createdAt: int)

  /** `Omit<Contact, "id" | "createdAt" | "status">`: what the forms and the CSV import produce. */
  datatype ContactInput = ContactInput(
    companyName: string,
    email: string,
    contactPerson: Option<string>,
    phone: Option<string>,
    lastContacted: Option<int>,
    notes: Option<string>)

  datatype EmailTemplate = EmailTemplate(id: string, name: string, subject: string, body: string, createdAt: int)

  /** `Omit<EmailTemplate, "id" | "createdAt">`. */
  datatype TemplateInput = TemplateInput(name: string, subject: string, body: string)

  /** JavaScript truthiness of an optional string: present and not empty. */
  predicate Truthy(s: Option<string>)
  {
    s.Some? && s.value != ""
  }
}
