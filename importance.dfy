/** The importance gate of main.go:123-160. */
module Importance {
  import opened Events

  const ImportantDocumentIds: set<string> := {InstanceLoginId, UserSettingsId}

  const ImportantFormIds: set<string> :=
    {LoginFormId, UserFormId, ReviewFormId, ProcedureFormId, VideoFormId, ImageFormId, PatientFormId}

  /** A document the audit trail cares about: its own id or its form's id is allow-listed. */
  predicate Important(doc: Document)
  {
    doc.id in ImportantDocumentIds || doc.form.id in ImportantFormIds
  }

  /** The flag of main.go:123-160, set to true by any of nine checks and never reset. */
  method ClassifyImportance(doc: Document) returns (isImportantEvent: bool)
    ensures isImportantEvent <==> Important(doc)
  {
    isImportantEvent := false;
    if doc.id == InstanceLoginId {
      isImportantEvent := true;
    }
    if doc.id == UserSettingsId {
      isImportantEvent := true;
    }
    if doc.form.id == LoginFormId {
      isImportantEvent := true;
    }
    if doc.form.id == UserFormId {
      isImportantEvent := true;
    }
    if doc.form.id == ReviewFormId {
      isImportantEvent := true;
    }
    if doc.form.id == ProcedureFormId {
      isImportantEvent := true;
    }
    if doc.form.id == VideoFormId {
      isImportantEvent := true;
    }
    if doc.form.id == ImageFormId {
      isImportantEvent := true;
    }
    if doc.form.id == PatientFormId {
      isImportantEvent := true;
    }
  }
}
