/**
 * The handler that replaces a contact's picture. The contacts table and the directory
 * uploads/contact_images are the state; the database and filesystem steps that can throw are
 * driven by a Faults value, and the backend's image-URL qualifier is a parameter.
 */
module UpdateImage {
  import opened Optional
  import opened ApiErrors
  import opened JsStrings
  import JsParseInt

  /** A row of the contacts table: its owner and its stored avatar path, if any. */
  datatype Contact = Contact(userId: int, avatar: Option<string>)

  /** The contact sent back to the client, its avatar qualified into a URL. */
  datatype ContactView = ContactView(id: int, userId: int, avatar: Option<string>)

  /** A successful reply: `new ApiResponse({ status, message, data })`. */
  datatype Response = Response(status: int, message: string, data: ContactView)

  datatype Outcome = Ok(response: Response) | Err(error: ApiError)

  /** A value thrown by a database or filesystem step: an Error with its message, or anything else. */
  datatype Thrown = ErrorObject(message: string) | OtherValue

  /** What the handler's try block can end with: its own ApiError, or something thrown by a step. */
  datatype Failure = Api(apiError: ApiError) | Raised(thrown: Thrown)

  /**
   * Which of the steps that talk to the outside throw: looking the contact up, removing the old
   * file, saving the new avatar, and fetching the updated contact back (a missing row there fails
   * on `toJSON` too).
   */
  datatype Faults = Faults(lookup: Option<Thrown>, removeOld: Option<Thrown>, update: Option<Thrown>,
                           refetch: Option<Thrown>)

  const FileRequired: ApiError := ApiError(400, "Image file is required", [])
  const IdRequired: ApiError := ApiError(400, "Contact ID is required", [])
  const NotFound: ApiError := ApiError(404, "Contact not found", [])
  const ImageUpdated: string := "Contact image updated successfully"

  /** The message the 500 error carries for a thrown value. */
  function ThrownMessage(t: Thrown): string {
    match t
    case ErrorObject(m) => m
    case OtherValue => "Unknown error"
  }

  /** What the catch block throws: an ApiError again as it is, anything else as a 500 carrying its message. */
  function Rethrown(f: Failure): (e: ApiError)
    ensures f.Api? ==> e == f.apiError
    ensures f.Raised? ==> e.status == 500 && e.message == "Failed to update contact image"
    ensures f.Raised? ==> e.errors == [Entry("message", ThrownMessage(f.thrown))]
  {
    match f
    case Api(e) => e
    case Raised(t) => ApiError(500, "Failed to update contact image", [Entry("message", ThrownMessage(t))])
  }

  /**
   * The name of the file an avatar value refers to inside uploads/contact_images: the part after
   * its last '/', or the whole value when it has none.
   */
  function OldFileName(avatar: string): (name: string)
    ensures '/' !in name
    ensures '/' !in avatar ==> name == avatar
    ensures '/' in avatar ==> |name| < |avatar| && avatar[|avatar| - |name| - 1] == '/'
    ensures name == avatar[|avatar| - |name|..]
  {
    if '/' in avatar then
      var k := AfterLast(avatar, '/');
      assert k > 0;
      SplitLast(avatar, '/', k);
      var parts := Split(avatar, '/');
      parts[|parts| - 1]
    else avatar
  }

  /** The stored file a contact's avatar refers to, if it has a non-empty avatar. */
  function StaleFile(avatar: Option<string>): (f: Option<string>)
    ensures f.Some? <==> avatar.Some? && avatar.value != ""
  {
    if avatar.Some? && avatar.value != "" then Some(OldFileName(avatar.value)) else None
  }

  /** The avatar path stored for an uploaded file. */
  function StoredPath(filename: string): string {
    "contact_images/" + filename
  }

  /** The contact a caller may change: the one with the given id, only if the caller owns it. */
  function FindOwned(contacts: map<int, Contact>, id: Option<int>, caller: int): (found: Option<int>)
    ensures found.Some? <==> id.Some? && id.value in contacts && contacts[id.value].userId == caller
    ensures found.Some? ==> found == id
  {
    if id.Some? && id.value in contacts && contacts[id.value].userId == caller then id else None
  }

  /** A route parameter counts as given when it is present and not empty. */
  predicate Given(param: Option<string>) {
    param.Some? && param.value != ""
  }

  /** The two things a request changes: the contacts table, by id, and the names of the files in uploads/contact_images. */
  datatype State = State(contacts: map<int, Contact>, files: set<string>)

  /** A request: the `:id` route parameter, the name the upload middleware gave the file, and the caller's user id. */
  datatype Request = Request(idParam: Option<string>, upload: Option<string>, caller: int)

  /** How the try block ends: with the reply, or with something thrown. */
  datatype TryResult = Replied(response: Response) | Threw(failure: Failure)

  /** The state and result at the end of the try block. */
  datatype Attempt = Attempt(state: State, result: TryResult)

  /** The state after the request and what the client receives. */
  datatype Step = Step(state: State, out: Outcome)

  /**
   * The try block: check the inputs, find the caller's contact, then replace its image. It keeps
   * every row of the table and only removes files; it replies only to a request with both inputs,
   * and the only errors it raises itself are the two input checks and "not found".
   */
  function TryBlock(s: State, req: Request, faults: Faults, qualify: Option<string> -> Option<string>): (a: Attempt)
    ensures a.state.contacts.Keys == s.contacts.Keys && a.state.files <= s.files
    ensures a.result.Replied? ==> Given(req.idParam) && req.upload.Some?
    ensures a.result.Threw? && a.result.failure.Api? ==>
      a.result.failure.apiError in {IdRequired, FileRequired, NotFound}
  {
    if !Given(req.idParam) then Attempt(s, Threw(Api(IdRequired)))
    else if req.upload.None? then Attempt(s, Threw(Api(FileRequired)))
    else if faults.lookup.Some? then Attempt(s, Threw(Raised(faults.lookup.value)))
    else
      match FindOwned(s.contacts, JsParseInt.ParseInt(req.idParam.value), req.caller)
      case None => Attempt(s, Threw(Api(NotFound)))
      case Some(id) => ReplaceImage(s, id, req.upload.value, faults, qualify)
  }

  /**
   * The rest of the try block for the caller's contact `id`: remove its old file, store the new
   * path, reply. Rows are kept and files only removed; whatever it throws comes from a step, and
   * a reply is a 200 after the contact's avatar has become the uploaded file's path.
   */
  function ReplaceImage(s: State, id: int, upload: string, faults: Faults,
                        qualify: Option<string> -> Option<string>): (a: Attempt)
    requires id in s.contacts
    ensures a.state.contacts.Keys == s.contacts.Keys && a.state.files <= s.files
    ensures a.result.Threw? ==> a.result.failure.Raised?
    ensures a.result.Replied? ==>
      a.result.response.status == 200 && a.state.contacts[id].avatar == Some(StoredPath(upload))
  {
    var contact := s.contacts[id];
    var stale := StaleFile(contact.avatar);
    var present := stale.Some? && stale.value in s.files;
    if present && faults.removeOld.Some? then Attempt(s, Threw(Raised(faults.removeOld.value)))
    else
      var files := if present then s.files - {stale.value} else s.files;
      var path := StoredPath(upload);
      if faults.update.Some? then Attempt(State(s.contacts, files), Threw(Raised(faults.update.value)))
      else
        var contacts := s.contacts[id := contact.(avatar := Some(path))];
        if faults.refetch.Some? then Attempt(State(contacts, files), Threw(Raised(faults.refetch.value)))
        else
          var view := ContactView(id, contact.userId, qualify(Some(path)));
          Attempt(State(contacts, files), Replied(Response(200, ImageUpdated, view)))
  }

  /** Replacing the image of contact `id` changes at most its avatar and removes at most its old file. */
  lemma ReplaceImageEffect(s: State, id: int, upload: string, faults: Faults, qualify: Option<string> -> Option<string>)
    requires id in s.contacts
    ensures var a := ReplaceImage(s, id, upload, faults, qualify);
      (a.state.contacts == s.contacts ||
       a.state.contacts == s.contacts[id := s.contacts[id].(avatar := Some(StoredPath(upload)))]) &&
      (a.state.files == s.files || a.state.files == s.files - Elements(StaleFile(s.contacts[id].avatar)))
  {
  }

  /**
   * The whole handler: the try block, then on a failure the catch block's clean-up and re-throw.
   * A success is a 200 "updated" reply; an error is a 400, a 404 or a 500.
   */
  function Handle(s: State, req: Request, faults: Faults, qualify: Option<string> -> Option<string>): (r: Step)
    ensures r.out.Ok? ==> r.out.response.status == 200 && r.out.response.message == ImageUpdated
    ensures r.out.Err? ==> r.out.error.status in {400, 404, 500}
  {
    var attempt := TryBlock(s, req, faults, qualify);
    match attempt.result
    case Replied(response) => Step(attempt.state, Ok(response))
    case Threw(failure) =>
      var files := attempt.state.files;
      var cleaned := if req.upload.Some? && req.upload.value in files then files - {req.upload.value} else files;
      Step(State(attempt.state.contacts, cleaned), Err(Rethrown(failure)))
  }

  /** The id the handler looks up, when the route parameter is given. */
  function TargetId(req: Request): Option<int> {
    if Given(req.idParam) then JsParseInt.ParseInt(req.idParam.value) else None
  }

  /** The old file exists and is about to be removed. */
  predicate StalePresent(s: State, id: int)
    requires id in s.contacts
  {
    var stale := StaleFile(s.contacts[id].avatar);
    stale.Some? && stale.value in s.files
  }

  const NoFaults: Faults := Faults(None, None, None, None)

  /** With no fault, a request for a contact the caller owns replaces its image. */
  lemma OwnedRequestSucceeds(s: State, req: Request, qualify: Option<string> -> Option<string>)
    requires Given(req.idParam) && req.upload.Some?
    requires FindOwned(s.contacts, TargetId(req), req.caller).Some?
    ensures var id := TargetId(req).value;
      var contact := s.contacts[id];
      var path := StoredPath(req.upload.value);
      Handle(s, req, NoFaults, qualify)
      == Step(State(s.contacts[id := contact.(avatar := Some(path))], s.files - Elements(StaleFile(contact.avatar))),
              Ok(Response(200, ImageUpdated, ContactView(id, contact.userId, qualify(Some(path))))))
  {
  }

  /**
   * An upload that has the same name as the contact's old file is removed as the old file, even
   * though the new avatar path names it.
   */
  lemma SameNameUploadRemoved(s: State, req: Request, qualify: Option<string> -> Option<string>)
    requires Given(req.idParam) && req.upload.Some?
    requires FindOwned(s.contacts, TargetId(req), req.caller).Some?
    requires StaleFile(s.contacts[TargetId(req).value].avatar) == req.upload
    ensures var r := Handle(s, req, NoFaults, qualify);
      r.out.Ok? && r.state.contacts[TargetId(req).value].avatar == Some(StoredPath(req.upload.value)) &&
      req.upload.value !in r.state.files
  {
  }

  /** A missing id is reported first, whatever else the request lacks; then a missing file. Neither touches the table. */
  lemma InputChecks(s: State, req: Request, faults: Faults, qualify: Option<string> -> Option<string>)
    ensures !Given(req.idParam) ==>
      Handle(s, req, faults, qualify) == Step(State(s.contacts, s.files - Elements(req.upload)), Err(IdRequired))
    ensures Given(req.idParam) && req.upload.None? ==>
      Handle(s, req, faults, qualify) == Step(s, Err(FileRequired))
  {
  }

  /**
   * A contact that does not exist or belongs to someone else is "not found" (a 500 if the lookup
   * itself throws), and only the upload is removed.
   */
  lemma NotOwnedIsNotFound(s: State, req: Request, faults: Faults, qualify: Option<string> -> Option<string>)
    requires Given(req.idParam) && req.upload.Some?
    requires var id := TargetId(req); id.None? || id.value !in s.contacts || s.contacts[id.value].userId != req.caller
    ensures Handle(s, req, faults, qualify)
         == Step(State(s.contacts, s.files - {req.upload.value}),
                 Err(if faults.lookup.Some? then Rethrown(Raised(faults.lookup.value)) else NotFound))
  {
  }

  /** The only table a request can leave behind: the old one, or the old one with the caller's contact's avatar replaced. */
  lemma TableEffect(s: State, req: Request, faults: Faults, qualify: Option<string> -> Option<string>)
    ensures var t := Handle(s, req, faults, qualify).state.contacts;
      t == s.contacts ||
      (req.upload.Some? && FindOwned(s.contacts, TargetId(req), req.caller).Some? &&
       var id := TargetId(req).value;
       t == s.contacts[id := s.contacts[id].(avatar := Some(StoredPath(req.upload.value)))])
  {
    if Given(req.idParam) && req.upload.Some? && faults.lookup.None? {
      var found := FindOwned(s.contacts, JsParseInt.ParseInt(req.idParam.value), req.caller);
      if found.Some? {
        ReplaceImageEffect(s, found.value, req.upload.value, faults, qualify);
      }
    }
  }

  /** A request changes no contact but the one it names, and never one its caller does not own. */
  lemma OnlyOwnedTargetChanges(s: State, req: Request, faults: Faults, qualify: Option<string> -> Option<string>)
    ensures Handle(s, req, faults, qualify).state.contacts.Keys == s.contacts.Keys
    ensures forall id :: id in s.contacts && (Some(id) != TargetId(req) || s.contacts[id].userId != req.caller) ==>
      Handle(s, req, faults, qualify).state.contacts[id] == s.contacts[id]
  {
    TableEffect(s, req, faults, qualify);
  }

  /** A request succeeds exactly when both inputs are given, the caller owns the contact and no step it reaches throws. */
  lemma SucceedsExactly(s: State, req: Request, faults: Faults, qualify: Option<string> -> Option<string>)
    ensures Handle(s, req, faults, qualify).out.Ok? <==>
      Given(req.idParam) && req.upload.Some? &&
      faults.lookup.None? && FindOwned(s.contacts, TargetId(req), req.caller).Some? &&
      (faults.removeOld.None? || !StalePresent(s, TargetId(req).value)) &&
      faults.update.None? && faults.refetch.None?
  {
  }

  /**
   * On success the old file is gone, the contact's avatar is "contact_images/<upload>", every other
   * contact is as before, and the reply is a 200 carrying the qualified avatar.
   */
  lemma SuccessReplacesImage(s: State, req: Request, faults: Faults, qualify: Option<string> -> Option<string>)
    requires Handle(s, req, faults, qualify).out.Ok?
    ensures req.upload.Some? && TargetId(req).Some?
    ensures var id := TargetId(req).value;
      var r := Handle(s, req, faults, qualify);
      var path := StoredPath(req.upload.value);
      id in s.contacts && s.contacts[id].userId == req.caller &&
      r.state.contacts == s.contacts[id := s.contacts[id].(avatar := Some(path))] &&
      r.state.files == s.files - Elements(StaleFile(s.contacts[id].avatar)) &&
      r.out.response == Response(200, ImageUpdated, ContactView(id, req.caller, qualify(Some(path))))
  {
    SucceedsExactly(s, req, faults, qualify);
  }

  /** Files are only removed, and a failed request leaves no uploaded file behind, whatever step failed. */
  lemma FailureRemovesUpload(s: State, req: Request, faults: Faults, qualify: Option<string> -> Option<string>)
    ensures Handle(s, req, faults, qualify).state.files <= s.files
    ensures Handle(s, req, faults, qualify).out.Err? && req.upload.Some? ==>
      req.upload.value !in Handle(s, req, faults, qualify).state.files
  {
  }

  /** The 500 errors a fault can turn into. */
  function FaultErrors(faults: Faults): set<ApiError> {
    ErrorOf(faults.lookup) + ErrorOf(faults.removeOld) + ErrorOf(faults.update) + ErrorOf(faults.refetch)
  }

  function ErrorOf(fault: Option<Thrown>): set<ApiError> {
    if fault.Some? then {Rethrown(Raised(fault.value))} else {}
  }

  /**
   * Errors the handler raises itself keep their status and message; everything else a step throws
   * is reported as a 500 carrying that step's message.
   */
  lemma ErrorStatuses(s: State, req: Request, faults: Faults, qualify: Option<string> -> Option<string>)
    ensures var out := Handle(s, req, faults, qualify).out;
      out.Err? ==> out.error in {IdRequired, FileRequired, NotFound} + FaultErrors(faults)
  {
  }

  /**
   * If fetching the updated contact fails, its new avatar has already been saved while the file it
   * names has been removed: the contact is left pointing at a missing file.
   */
  lemma RefetchFailureLeavesDanglingAvatar(s: State, req: Request, faults: Faults, qualify: Option<string> -> Option<string>)
    requires Given(req.idParam) && req.upload.Some?
    requires FindOwned(s.contacts, TargetId(req), req.caller).Some?
    requires faults.lookup.None? && faults.removeOld.None? && faults.update.None? && faults.refetch.Some?
    ensures var r := Handle(s, req, faults, qualify);
      var id := TargetId(req).value;
      r.out.Err? && r.out.error.status == 500 &&
      r.state.contacts[id].avatar == Some(StoredPath(req.upload.value)) &&
      req.upload.value !in r.state.files
  {
  }

  /** A stored path read back as an old avatar names the uploaded file again. */
  lemma StaleOfStoredPath(f: string)
    requires '/' !in f
    ensures StaleFile(Some(StoredPath(f))) == Some(f)
  {
    var avatar := StoredPath(f);
    var name := OldFileName(avatar);
    var prefix := "contact_images/";
    assert avatar[|prefix| - 1] == '/';
    assert |name| == |f|;
    assert avatar[|prefix|..] == f;
  }

  /**
   * Two uploads in a row for the same contact leave only the second file: the second request
   * removes the file the first one stored.
   */
  lemma ReplaceTwiceKeepsOneFile(s: State, id: int, idParam: string, owner: int, a: string, b: string,
                                 qualify: Option<string> -> Option<string>, first: Step, second: Step)
    requires idParam != "" && JsParseInt.ParseInt(idParam) == Some(id)
    requires id in s.contacts && s.contacts[id].userId == owner
    requires '/' !in a && a != b
    requires StaleFile(s.contacts[id].avatar) != Some(a)
    requires first == Handle(State(s.contacts, s.files + {a}), Request(Some(idParam), Some(a), owner), NoFaults, qualify)
    requires second == Handle(State(first.state.contacts, first.state.files + {b}),
                              Request(Some(idParam), Some(b), owner), NoFaults, qualify)
    ensures first.out.Ok? && second.out.Ok?
    ensures a !in second.state.files && b in second.state.files
    ensures second.state.contacts[id].avatar == Some(StoredPath(b))
  {
    var s1 := State(s.contacts, s.files + {a});
    OwnedRequestSucceeds(s1, Request(Some(idParam), Some(a), owner), qualify);
    assert first.state.contacts[id].avatar == Some(StoredPath(a));
    assert a in first.state.files;
    StaleOfStoredPath(a);
    var s2 := State(first.state.contacts, first.state.files + {b});
    OwnedRequestSucceeds(s2, Request(Some(idParam), Some(b), owner), qualify);
  }

  class ContactStore {
    /** The contacts table, by id. */
    var contacts: map<int, Contact>
    /** The names of the files in uploads/contact_images. */
    var files: set<string>

    constructor (contacts: map<int, Contact>, files: set<string>)
      ensures this.contacts == contacts && this.files == files
    {
      this.contacts := contacts;
      this.files := files;
    }

    /** The upload middleware storing a request's file before the handler runs. */
    method ReceiveUpload(filename: string)
      modifies this
      ensures files == old(files) + {filename}
      ensures contacts == old(contacts)
    {
      files := files + {filename};
    }

    /**
     * One request to replace the picture of contact `idParam` with the uploaded file `upload`, made
     * by user `caller`. `qualify` is the backend's image-URL qualifier.
     */
    method UpdateContactImage(idParam: Option<string>, upload: Option<string>, caller: int,
                              faults: Faults, qualify: Option<string> -> Option<string>)
      returns (out: Outcome)
      modifies this
      ensures Step(State(contacts, files), out)
           == Handle(State(old(contacts), old(files)), Request(idParam, upload, caller), faults, qualify)
    {
      var result: TryResult;
      // try
      if !Given(idParam) {
        result := Threw(Api(IdRequired));
      } else if upload.None? {
        result := Threw(Api(FileRequired));
      } else if faults.lookup.Some? {
        result := Threw(Raised(faults.lookup.value));
      } else {
        var found := FindOwned(contacts, JsParseInt.ParseInt(idParam.value), caller);
        if found.None? {
          result := Threw(Api(NotFound));
        } else {
          result := ReplaceStoredImage(found.value, upload.value, faults, qualify);
        }
      }
      // catch
      match result
      case Replied(response) =>
        out := Ok(response);
      case Threw(failure) =>
        if upload.Some? && upload.value in files {
          files := files - {upload.value};
        }
        out := Err(Rethrown(failure));
    }

    /** The steps for the caller's contact `key`: remove its old file, save the new avatar path, fetch it back. */
    method ReplaceStoredImage(key: int, upload: string, faults: Faults, qualify: Option<string> -> Option<string>)
      returns (result: TryResult)
      requires key in contacts
      modifies this
      ensures Attempt(State(contacts, files), result)
           == ReplaceImage(State(old(contacts), old(files)), key, upload, faults, qualify)
    {
      var contact := contacts[key];
      var stale := StaleFile(contact.avatar);
      if stale.Some? && stale.value in files {
        if faults.removeOld.Some? {
          return Threw(Raised(faults.removeOld.value));
        }
        files := files - {stale.value};
      }
      var path := StoredPath(upload);
      if faults.update.Some? {
        return Threw(Raised(faults.update.value));
      }
      contacts := contacts[key := contact.(avatar := Some(path))];
      if faults.refetch.Some? {
        return Threw(Raised(faults.refetch.value));
      }
      var saved := contacts[key];
      result := Replied(Response(200, ImageUpdated, ContactView(key, saved.userId, qualify(saved.avatar))));
    }
  }
}
