/** The decoded change events of main.go (types Reference, DateTimeStamp, Document, ChangeEvent) and its constants. */
module Events {
  import opened Json

  datatype Option<T> = None | Some(value: T)

  datatype Reference = Reference(id: string, version: string, text: string)

  datatype DateTimeStamp = DateTimeStamp(at: string)

  datatype Document = Document(
    id: string,
    version: string,
    form: Reference,
    created: DateTimeStamp,
    modified: DateTimeStamp,
    data: map<string, JsonValue>,
    previous: map<string, JsonValue>)

  /** `Document` is a pointer in Go; `None` is a nil pointer. */
  datatype ChangeEvent = ChangeEvent(path: string, eventType: string, document: Option<Document>)

  /** The two payload shapes of a `.json` file: one with a non-null top-level `type`, decoded as a whole
      change event (its `document` may be missing), and a bare document. */
  datatype Payload =
    | Typed(eventType: string, document: Option<Document>)
    | Untyped(bare: Document)

  datatype JsonFile = JsonFile(path: string, payload: Payload)

  /** The places where the Go program panics on the inputs it reads (a nil pointer dereference,
      a failed type assertion, an index out of range). */
  datatype PanicSite =
    | NilDocument           // main.go:120, `changeEvent.Document.Modified` on a nil Document
    | CurrentUserNotObject  // main.go:181
    | LoginUserNotObject    // main.go:190
    | SuccessNotBool        // main.go:191
    | LoginPatchNotObject   // main.go:196
    | UserPatchNotObject    // main.go:215
    | LockedNotArray        // main.go:235, `.([]interface{})`
    | LockedTooShort        // main.go:235, `[1]`
    | LockedStateNotBool    // main.go:235, `.(bool)`
    | ReviewUserNotObject   // main.go:242

  /** VITEGRA_INSTANCE_LOGIN */
  const InstanceLoginId := "f0380b58-0987-43d9-89f7-bcffa6fff82c"
  /** USER_SETTINGS */
  const UserSettingsId := "4a152c0c-df7c-4ad5-8c62-495a01216308"
  const LoginFormId := "f0533e05-617b-47ac-a5ca-32c3a36643c2"
  const UserFormId := "0f3894e8-b5ad-40b4-89a1-df30e8476a15"
  const ReviewFormId := "4ce26984-aad7-4847-9de1-9ad8d4f7fe9d"
  const PatientFormId := "0b2d5b3a-abed-44f2-959c-591f6af5161c"
  const ImageFormId := "032d1643-a3cb-4a8e-8cd5-237b5f32e211"
  const VideoFormId := "ee450438-2918-47d4-8892-b6f5df3d508a"
  const ProcedureFormId := "e90b9ab4-085a-4973-8ef0-ae683599c92c"

  const InitialVersion := "initial"
  const UpdatedType := "updated"

  /** The change event built from one file: a typed payload keeps its own type and document,
      a bare document becomes an implicit "updated" event wrapping it. */
  function Decode(f: JsonFile): (e: ChangeEvent)
    ensures e.path == f.path
    ensures f.payload.Untyped? ==> e.eventType == UpdatedType && e.document == Some(f.payload.bare)
    ensures f.payload.Typed? ==> e.eventType == f.payload.eventType && e.document == f.payload.document
  {
    match f.payload
    case Typed(t, d) => ChangeEvent(f.path, t, d)
    case Untyped(d) => ChangeEvent(f.path, UpdatedType, Some(d))
  }
}
