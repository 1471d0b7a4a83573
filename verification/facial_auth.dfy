/** The visitor check of components/facial-auth-app.tsx: the camera starts on
    mount, a still is captured, uploaded to the visitor image store under a
    fresh key, and the verification service is asked about that key; a 200
    answer signs the visitor in and opens the task list for the names it
    returns, anything else is shown as a refusal or an error.

    The camera and the conversion of the still to a blob are taken to
    complete within the handler that starts them (their outcome is a
    parameter); the two requests are the suspension points kept, so
    `Authenticate` sends the PUT, `SettleUpload` runs when it completes and
    sends the GET, and `SettleVerification` runs when that completes. The
    fresh keys `uuidv4()` produces are parameters. */
module FacialAuthApp {
  import opened Text
  import opened Browser
  import opened Uri
  import TodoPage

  const Prompt: string := "Please capture an image to authenticate"
  const AuthenticatingMessage: string := "Authenticating..."
  const NotAuthorized: string := "❌ Sorry, you are not authorized to access the worksite."
  const NotAuthorizedHtml: string :=
    "<span class='text-red-600 font-bold'>❌ Sorry, you are not authorized to access this worksite.</span>"
  const AuthError: string := "Error during authentication process. Please try again."
  const AuthErrorHtml: string :=
    "<span class='text-red-600 font-bold'>Error during authentication process. Please try again.</span>"

  const VisitorStore: string := "https://t11oq5vyz7.execute-api.us-east-1.amazonaws.com/dev/facial-visitor-image-storage/"
  const VerifyEndpoint: string := "https://t11oq5vyz7.execute-api.us-east-1.amazonaws.com/dev/employees?objectKey="

  /** Where the still of visitor `key` is stored. */
  function VisitorUrl(key: string): (r: string)
    ensures StartsWith(r, VisitorStore) && r[|VisitorStore|..] == key + ".jpeg"
  {
    var u := VisitorStore + (key + ".jpeg");
    assert u[|VisitorStore|..] == key + ".jpeg";
    u
  }

  /** Where the verdict on visitor `key` is asked for. */
  function VerifyUrl(key: string): (r: string)
    ensures StartsWith(r, VerifyEndpoint) && r[|VerifyEndpoint|..] == key + ".jpeg"
  {
    var u := VerifyEndpoint + (key + ".jpeg");
    assert u[|VerifyEndpoint|..] == key + ".jpeg";
    u
  }

  /** The verification asks about the object an upload stored exactly when
      both use the same key: the stored object names are distinct for
      distinct keys. */
  lemma {:induction false} SameObject(putKey: string, getKey: string)
    ensures VisitorUrl(putKey)[|VisitorStore|..] == VerifyUrl(getKey)[|VerifyEndpoint|..] <==> putKey == getKey
  {
    if VisitorUrl(putKey)[|VisitorStore|..] == VerifyUrl(getKey)[|VerifyEndpoint|..] {
      assert putKey == (putKey + ".jpeg")[..|putKey|];
      assert getKey == (getKey + ".jpeg")[..|getKey|];
    }
  }

  /** The parsed body of the verification answer: `null`, or an object with
      perhaps a string `firstName` and `lastName` (any other value reads as
      an object without them). */
  datatype Json = JNull | JObject(firstName: Option<string>, lastName: Option<string>)

  /** What `verifyAuthentication` returns. */
  datatype VerifyReply = VerifyReply(status: int, data: Json)

  /** How the verification GET ends: a response whose body parses as JSON
      (`Some`) or not (`None`), or a network error. */
  datatype GetOutcome = Answered(status: int, body: Option<Json>) | GetFailed

  /** `verifyAuthentication(key)` once the GET has completed: a failed
      request or an unreadable body becomes status 500 with an empty object. */
  function VerifyAuthentication(o: GetOutcome): (r: VerifyReply)
    ensures r.status == 200 ==> o.Answered? && o.status == 200 && o.body == Some(r.data)
    ensures o.GetFailed? || o.body.None? ==> r == VerifyReply(500, JObject(None, None))
    ensures o.Answered? && o.body.Some? ==> r.status == o.status && r.data == o.body.value
  {
    match o
    case Answered(status, Some(data)) => VerifyReply(status, data)
    case _ => VerifyReply(500, JObject(None, None))
  }

  /** A name as the route template writes it, encoded as a URI component.
      For a field that may be missing: a missing
      field is `undefined`, which encodes as the word itself. */
  function Field(v: Option<string>): string {
    EncodeComponent(if v.Some? then v.value else "undefined")
  }

  /** The task list of a signed-in visitor: the page `/todo` with the
      query of the two encoded names. That the query reads back as exactly
      those names is `RouteQuery`. */
  function TodoRoute(firstName: Option<string>, lastName: Option<string>): (r: string)
    ensures StartsWith(r, "/todo?")
    ensures r[6..] == TodoQuery(firstName, lastName)
  {
    var q := TodoQuery(firstName, lastName);
    assert ("/todo?" + q)[6..] == q;
    "/todo?" + q
  }

  /** The two names as the route writes them: each encoded as a URI
      component and set under its own parameter. */
  function TodoQuery(firstName: Option<string>, lastName: Option<string>): string {
    "firstName=" + Field(firstName) + "&lastName=" + Field(lastName)
  }

  /** How an attempt ends. */
  datatype Verdict = Admitted(route: string) | Refused | Failed

  /** The part of `sendImage` after the verification: a 200 answer admits
      (reading the names from the body, which throws for `null`), any other
      status refuses. */
  function Judge(reply: VerifyReply): (v: Verdict)
    ensures v.Admitted? <==> reply.status == 200 && reply.data.JObject?
    ensures v.Failed? <==> reply.status == 200 && reply.data.JNull?
    ensures v.Admitted? ==> v.route == TodoRoute(reply.data.firstName, reply.data.lastName)
  {
    if reply.status == 200 then
      match reply.data
      case JNull => Failed
      case JObject(f, l) => Admitted(TodoRoute(f, l))
    else Refused
  }

  /** The whole of `sendImage`, from how its two requests end. */
  function Outcome(put: FetchOutcome, get: GetOutcome): (v: Verdict)
    ensures put.NetworkError? ==> v.Failed?
    ensures v.Refused? <==> put.Responded? && (get.GetFailed? || get.body.None? || get.status != 200)
    ensures v.Admitted? ==>
      get.Answered? && get.body.Some? && get.body.value.JObject? &&
      v.route == TodoRoute(get.body.value.firstName, get.body.value.lastName)
  {
    if put.NetworkError? then Failed else Judge(VerifyAuthentication(get))
  }

  /** A visitor is admitted exactly when the upload got any response and the
      verification answered 200 with an object. */
  lemma {:induction false} AdmittedIff(put: FetchOutcome, get: GetOutcome)
    ensures Outcome(put, get).Admitted? <==>
      put.Responded? && get.Answered? && get.status == 200 && get.body.Some? && get.body.value.JObject?
  {
    if put.Responded? && Outcome(put, get).Admitted? {
      assert VerifyAuthentication(get).status == 200;
    }
  }

  /** Only a failed upload or a 200 answer with a `null` body shows the
      error message; a failed verification request reads as status 500 and
      is shown as a refusal. */
  lemma {:induction false} FailedIff(put: FetchOutcome, get: GetOutcome)
    ensures Outcome(put, get).Failed? <==>
      put.NetworkError? || (get.Answered? && get.status == 200 && get.body == Some(JNull))
  {
    if put.Responded? && Outcome(put, get).Failed? {
      assert VerifyAuthentication(get).status == 200;
    }
  }

  lemma {:induction false} VerificationErrorRefuses(status: int)
    ensures Outcome(Responded(status), GetFailed) == Refused
  {
  }

  /** The query of the task-list route holds exactly the two names, encoded. */
  lemma {:induction false} RouteQuery(firstName: Option<string>, lastName: Option<string>)
    ensures QueryPairs(TodoQuery(firstName, lastName)) == [("firstName", Field(firstName)), ("lastName", Field(lastName))]
  {
    var x, y := Field(firstName), Field(lastName);
    FieldIsInert(firstName);
    FieldIsInert(lastName);
    ParameterNames();
    assert TodoQuery(firstName, lastName) == "firstName" + "=" + x + "&" + "lastName" + "=" + y;
    TwoPairs("firstName", x, "lastName", y);
  }

  lemma {:induction false} FieldIsInert(v: Option<string>)
    ensures '&' !in Field(v)
  {
    EncodedIsInert(if v.Some? then v.value else "undefined");
  }

  lemma {:induction false} ParameterNames()
    ensures "firstName" != [] && '&' !in "firstName" && '=' !in "firstName"
    ensures "lastName" != [] && '&' !in "lastName" && '=' !in "lastName"
  {
  }

  /** The task list opened for an admitted visitor reads back the names the
      verification returned and so keeps that visitor's own list. */
  lemma {:induction false} AdmittedOpensOwnList(firstName: string, lastName: string)
    ensures var q := QueryPairs(TodoQuery(Some(firstName), Some(lastName)));
      && GetParam(q, "firstName").Some? && GetParam(q, "lastName").Some?
      && DecodeComponent(GetParam(q, "firstName").value) == Some(firstName)
      && DecodeComponent(GetParam(q, "lastName").value) == Some(lastName)
      && TodoPage.StorageKey(DecodeComponent(GetParam(q, "firstName").value), DecodeComponent(GetParam(q, "lastName").value))
         == "todos-" + firstName + "." + lastName
  {
    var x, y := Field(Some(firstName)), Field(Some(lastName));
    RouteQuery(Some(firstName), Some(lastName));
    ParamsOfRoute(x, y);
    DecodeEncode(firstName);
    DecodeEncode(lastName);
  }

  lemma {:induction false} ParamsOfRoute(x: string, y: string)
    ensures GetParam([("firstName", x), ("lastName", y)], "firstName") == Some(x)
    ensures GetParam([("firstName", x), ("lastName", y)], "lastName") == Some(y)
  {
    var q := [("firstName", x), ("lastName", y)];
    assert q[1..] == [("lastName", y)];
    assert "firstName" != "lastName";
  }

  lemma {:induction false} PlainNames()
    ensures Field(Some("Jane")) == "Jane" && Field(Some("Doe")) == "Doe"
  {
    EncodeUnreserved("Jane");
    EncodeUnreserved("Doe");
  }

  /** Names the encoding leaves alone appear in the route as they are. */
  lemma {:induction false} PlainRoute(f: string, l: string)
    requires Field(Some(f)) == f && Field(Some(l)) == l
    ensures TodoRoute(Some(f), Some(l)) == "/todo?firstName=" + f + "&lastName=" + l
  {
    var q := TodoQuery(Some(f), Some(l));
    assert q == "firstName=" + f + "&lastName=" + l;
    assert "/todo?" + q == "/todo?firstName=" + f + "&lastName=" + l;
  }

  lemma {:induction false} JaneDoeRoute()
    ensures TodoRoute(Some("Jane"), Some("Doe")) == "/todo?firstName=Jane&lastName=Doe"
  {
    PlainNames();
    PlainRoute("Jane", "Doe");
    JaneDoeText();
  }

  lemma {:induction false} JaneDoeText()
    ensures "/todo?firstName=" + "Jane" + "&lastName=" + "Doe" == "/todo?firstName=Jane&lastName=Doe"
  {
  }

  /** Jane Doe, recognised, is sent to their task list. */
  lemma {:induction false} JaneDoeAdmitted()
    ensures Outcome(Responded(200), Answered(200, Some(JObject(Some("Jane"), Some("Doe")))))
         == Admitted("/todo?firstName=Jane&lastName=Doe")
  {
    JaneDoeRoute();
    assert Outcome(Responded(200), Answered(200, Some(JObject(Some("Jane"), Some("Doe")))))
        == Admitted(TodoRoute(Some("Jane"), Some("Doe")));
  }

  /** A 403 from the verification is a refusal. */
  lemma {:induction false} ForbiddenRefused(body: Option<Json>)
    ensures Outcome(Responded(200), Answered(403, body)) == Refused
  {
  }

  /** Which buttons the page shows. */
  datatype Phase = Capturing | Reviewing(authenticateEnabled: bool)

  /** The step `sendImage` is waiting at, with the visitor key. */
  datatype Stage = AwaitingUpload(key: string) | AwaitingVerification(key: string)

  /** The plain-valued part of the page's state. */
  datatype Screen = Screen(
    image: Option<File>, preview: Option<string>, isUploading: bool, isAuth: bool,
    message: string, isCaptured: bool, authResponse: string)

  class AuthApp {
    var image: Option<File>
    var preview: Option<string>
    var isUploading: bool
    var isAuth: bool
    var message: string
    var isCaptured: bool
    var authResponse: string
    var stream: MediaStream?
    var pending: Option<Stage>
    /** The stream as the render that ran the mount effect saw it; the
        effect's cleanup stops that one. */
    var cleanupStream: MediaStream?
    const net: Network
    const router: Router

    constructor (net: Network, router: Router)
      ensures this.net == net && this.router == router
      ensures Snapshot() == Screen(None, None, false, false, Prompt, false, "")
      ensures stream == null && cleanupStream == null && pending.None? && Valid()
    {
      this.net := net;
      this.router := router;
      image, preview := None, None;
      isUploading, isAuth := false, false;
      message := Prompt;
      isCaptured := false;
      authResponse := "";
      stream, cleanupStream := null, null;
      pending := None;
    }

    function Snapshot(): Screen
      reads this
    {
      Screen(image, preview, isUploading, isAuth, message, isCaptured, authResponse)
    }

    /** A request is in flight exactly while the page says so, and a still
        is shown exactly when one was captured. */
    predicate Valid()
      reads this
    {
      (isUploading <==> pending.Some?) && (isCaptured <==> preview.Some?)
    }

    function Phase(): (p: Phase)
      reads this
      ensures p.Capturing? <==> !isCaptured
      ensures p.Reviewing? ==> p.authenticateEnabled == !isUploading
    {
      if !isCaptured then Capturing else Reviewing(!isUploading)
    }

    function Tracks(): set<Track>
      reads this
    {
      if stream != null then stream.Footprint() else {}
    }

    function CleanupTracks(): set<Track>
      reads this
    {
      if cleanupStream != null then cleanupStream.Footprint() else {}
    }

    /** `startCamera()`: a granted camera becomes the stream. */
    method StartCamera(cam: Option<MediaStream>)
      modifies this`stream
      ensures stream == if cam.Some? then cam.value else old(stream)
    {
      if cam.Some? {
        stream := cam.value;
      }
    }

    /** `stopCamera()`: the stream's tracks stop and the page forgets it. */
    method StopCamera()
      modifies this`stream, Tracks()
      ensures stream == null
      ensures old(stream) != null ==> forall t :: t in old(stream).tracks ==> !t.live
    {
      if stream != null {
        StopTracks(stream);
        stream := null;
      }
    }

    /** The mount effect: the camera starts; the cleanup it registers
        remembers the stream of this first render. */
    method Mount(cam: Option<MediaStream>)
      requires Valid()
      modifies this`stream, this`cleanupStream
      ensures Valid() && cleanupStream == old(stream)
      ensures stream == if cam.Some? then cam.value else old(stream)
    {
      cleanupStream := stream;
      StartCamera(cam);
    }

    /** The cleanup as registered: it stops the stream its render saw, which
        on the first render is none, so a running camera keeps running. */
    method Unmount()
      modifies this`stream, CleanupTracks()
      ensures cleanupStream == null ==> stream == old(stream)
      ensures cleanupStream == null && stream != null ==>
        forall t :: t in stream.tracks ==> t.live == old(t.live)
      ensures cleanupStream != null ==> stream == null && forall t :: t in cleanupStream.tracks ==> !t.live
    {
      if cleanupStream != null {
        StopTracks(cleanupStream);
        stream := null;
      }
    }

    /** Leaving the page as intended: the stream the page holds now stops. */
    method UnmountReleasingCamera()
      modifies this`stream, Tracks()
      ensures stream == null
      ensures old(stream) != null ==> forall t :: t in old(stream).tracks ==> !t.live
    {
      StopCamera();
    }

    /** "Capture": with the video and a drawing context (`frame` is the
        canvas as a JPEG data URL), the still is shown and the camera stops. */
    method CaptureImage(frame: Option<string>)
      requires Valid()
      modifies this`preview, this`isCaptured, this`stream, Tracks()
      ensures Valid()
      ensures frame.None? ==> Snapshot() == old(Snapshot()) && stream == old(stream)
      ensures frame.Some? ==> Snapshot() == old(Snapshot()).(preview := frame, isCaptured := true) && stream == null
      ensures frame.Some? && old(stream) != null ==> forall t :: t in old(stream).tracks ==> !t.live
    {
      if frame.Some? {
        preview := frame;
        isCaptured := true;
        StopCamera();
      }
    }

    /** "Reset": back to the prompt with no still, signed out, and the
        camera started again. */
    method ResetCapture(cam: Option<MediaStream>)
      requires Valid()
      modifies this`preview, this`image, this`isAuth, this`isCaptured, this`message, this`authResponse, this`stream
      ensures Valid()
      ensures Snapshot() == old(Snapshot()).(preview := None, image := None, isAuth := false, isCaptured := false,
                                              message := Prompt, authResponse := "")
      ensures stream == if cam.Some? then cam.value else old(stream)
    {
      preview := None;
      image := None;
      isAuth := false;
      isCaptured := false;
      message := Prompt;
      authResponse := "";
      StartCamera(cam);
    }

    /** "Authenticate" (disabled while a request is in flight). Without a
        still nothing happens; when reading the still fails (`blob` is
        `None`) the handler ends there. Otherwise the still becomes the
        JPEG file `<fileKey>.jpeg`, the page shows that it is authenticating,
        and the still is PUT to the visitor store under the fresh
        `visitorKey`. */
    method Authenticate(blob: Option<Blob>, fileKey: string, visitorKey: string)
      requires Valid() && !isUploading
      modifies this`image, this`isAuth, this`message, this`isUploading, this`pending, net
      ensures Valid()
      ensures old(preview).None? || old(preview) == Some([]) || blob.None? ==>
        Snapshot() == old(Snapshot()) && pending.None? && net.sent == old(net.sent)
      ensures old(preview).Some? && old(preview) != Some([]) && blob.Some? ==>
        var file := File(fileKey + ".jpeg", "image/jpeg", blob.value);
        && Snapshot() == old(Snapshot()).(image := Some(file), isAuth := false, message := AuthenticatingMessage, isUploading := true)
        && pending == Some(AwaitingUpload(visitorKey))
        && net.sent == old(net.sent) + [Request(PUT, VisitorUrl(visitorKey), Some(file))]
    {
      if preview.None? || preview.value == [] || blob.None? {
        return;
      }
      var file := File(fileKey + ".jpeg", "image/jpeg", blob.value);
      image := Some(file);
      isAuth := false;
      message := AuthenticatingMessage;
      // sendImage
      isUploading := true;
      net.Send(Request(PUT, VisitorUrl(visitorKey), Some(file)));
      pending := Some(AwaitingUpload(visitorKey));
    }

    /** The error shown when `sendImage` throws. */
    method ShowError()
      modifies this`isAuth, this`message, this`authResponse
      ensures Snapshot() == old(Snapshot()).(isAuth := false, message := AuthError, authResponse := AuthErrorHtml)
    {
      isAuth := false;
      message := AuthError;
      authResponse := AuthErrorHtml;
    }

    /** The PUT completes: whatever the response, the verification GET for
        the same key is sent; a network error ends the attempt with the
        error message. */
    method SettleUpload(put: FetchOutcome)
      requires Valid() && pending.Some? && pending.value.AwaitingUpload?
      modifies this`isAuth, this`message, this`authResponse, this`isUploading, this`pending, net
      ensures Valid()
      ensures var key := old(pending.value.key);
        if put.NetworkError? then
          && Snapshot() == old(Snapshot()).(isAuth := false, message := AuthError, authResponse := AuthErrorHtml, isUploading := false)
          && pending.None? && net.sent == old(net.sent)
        else
          && Snapshot() == old(Snapshot()) && pending == Some(AwaitingVerification(key))
          && net.sent == old(net.sent) + [Request(GET, VerifyUrl(key), None)]
    {
      var key := pending.value.key;
      if put.NetworkError? {
        ShowError();
        isUploading := false;
        pending := None;
      } else {
        net.Send(Request(GET, VerifyUrl(key), None));
        pending := Some(AwaitingVerification(key));
      }
    }

    /** The GET completes and `sendImage` ends as `Judge` says: admitted
        visitors are signed in and sent to their task list, others are told
        they are not authorized, a `null` body gives the error message. */
    method SettleVerification(get: GetOutcome)
      requires Valid() && pending.Some? && pending.value.AwaitingVerification?
      modifies this`isAuth, this`message, this`authResponse, this`isUploading, this`pending, router
      ensures Valid() && pending.None? && !isUploading
      ensures match Judge(VerifyAuthentication(get))
        case Admitted(route) =>
          && Snapshot() == old(Snapshot()).(isAuth := true, isUploading := false)
          && router.pushed == old(router.pushed) + [route]
        case Refused =>
          && Snapshot() == old(Snapshot()).(isAuth := false, message := NotAuthorized,
                                           authResponse := NotAuthorizedHtml, isUploading := false)
          && router.pushed == old(router.pushed)
        case Failed =>
          && Snapshot() == old(Snapshot()).(isAuth := false, message := AuthError,
                                           authResponse := AuthErrorHtml, isUploading := false)
          && router.pushed == old(router.pushed)
    {
      var reply := VerifyAuthentication(get);
      if reply.status == 200 {
        match reply.data
        case JNull =>
          assert Judge(reply) == Failed;
          ShowError();
        case JObject(f, l) =>
          var route := TodoRoute(f, l);
          assert Judge(reply) == Admitted(route);
          isAuth := true;
          router.Push(route);
      } else {
        assert Judge(reply) == Refused;
        isAuth := false;
        message := NotAuthorized;
        authResponse := NotAuthorizedHtml;
      }
      isUploading := false;
      pending := None;
    }
  }

  /** Mounting with a granted camera and unmounting at once: the cleanup as
      written leaves the camera's track running. */
  method UnmountLeavesCameraOn() returns (track: Track)
    ensures track.live
  {
    var net := new Network();
    var router := new Router();
    var app := new AuthApp(net, router);
    track := new Track();
    var camera := new MediaStream([track]);
    app.Mount(Some(camera));
    app.Unmount();
  }

  /** The same visit, leaving through the corrected cleanup: the track stops. */
  method UnmountReleasingStopsCamera() returns (track: Track)
    ensures !track.live
  {
    var net := new Network();
    var router := new Router();
    var app := new AuthApp(net, router);
    track := new Track();
    var camera := new MediaStream([track]);
    app.Mount(Some(camera));
    app.UnmountReleasingCamera();
  }
}
