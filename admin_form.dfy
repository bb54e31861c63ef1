/**
 * The speaker editor of the admin screen: social-URL validation, the
 * step-1 form check, and the request bodies sent when a speaker is created
 * or updated (with the image field's three states: key absent, `null`, value).
 */
module AdminForm {
  import opened JsValues
  import opened SocialPatterns

  /**
   * The messages the form shows: none (the empty string), the two required-field
   * messages, and the message attached to each platform's pattern.
   */
  datatype Message = NoMessage | NameRequired | DescriptionRequired | InvalidUrl(platform: Platform)

  /** The text of each message. */
  function MessageText(m: Message): string {
    match m
    case NoMessage => ""
    case NameRequired => "Event name is required"
    case DescriptionRequired => "Description is required"
    case InvalidUrl(p) => "Please enter a valid " + UrlHint(p)
  }

  /** The platform-specific rest of a pattern's message. */
  function UrlHint(p: Platform): string {
    match p
    case LinkedIn => "LinkedIn profile URL (e.g., https://linkedin.com/in/username)"
    case Facebook => "Facebook profile URL (e.g., https://facebook.com/username)"
    case Instagram => "Instagram profile URL (e.g., https://instagram.com/username)"
    case YouTube => "YouTube URL (e.g., https://youtube.com/@username)"
  }

  /** Only the absent message has the empty text. */
  lemma MessageTextEmpty(m: Message)
    ensures MessageText(m) == "" <==> m == NoMessage
  {
  }

  /** `{ isValid, message }` returned by validateSocialMediaUrl. */
  datatype Validation = Validation(isValid: bool, message: Message)

  /**
   * An empty URL is valid with an empty message; any other URL is valid
   * exactly when it is in the language of the platform's pattern, and the
   * message is empty exactly when the URL is valid.
   */
  function ValidateSocialMediaUrl(p: Platform, url: string): (v: Validation)
    ensures url == "" ==> v == Validation(true, NoMessage)
    ensures url != "" ==> (v.isValid <==> MatchesPattern(p, url))
    ensures v.message == NoMessage <==> v.isValid
    ensures !v.isValid ==> v.message == InvalidUrl(p)
  {
    if url == "" then Validation(true, NoMessage)
    else
      RecogniseIffPattern(p, url);
      var ok := Recognise(p, url);
      Validation(ok, if ok then NoMessage else InvalidUrl(p))
  }

  /** The editor's form state. `image` is `null` or a `File`; `imageUuid` is the stored image reference of an edited speaker. */
  datatype FormData = FormData(
    name: string, role: string, description: string,
    image: JsVal, imageUuid: JsVal, activityId: JsVal,
    linkedin: string, facebook: string, instagram: string, youtube: string)

  /** The form the editor starts from and is reset to: empty text, no file, no stored image, no activity. */
  const EmptyForm := FormData("", "", "", Null, Undefined, Null, "", "", "", "")

  function SocialField(f: FormData, p: Platform): string {
    match p
    case LinkedIn => f.linkedin
    case Facebook => f.facebook
    case Instagram => f.instagram
    case YouTube => f.youtube
  }

  /** The keys of the error object: `eventName`, `description` and one per platform. */
  datatype ErrorField = EventName | Description | SocialUrl(platform: Platform)

  /** The property name each error is stored under. */
  function KeyName(e: ErrorField): string {
    match e
    case EventName => "eventName"
    case Description => "description"
    case SocialUrl(p) =>
      match p
      case LinkedIn => "linkedin"
      case Facebook => "facebook"
      case Instagram => "instagram"
      case YouTube => "youtube"
  }

  /** `Object.keys(SOCIAL_MEDIA_PATTERNS)`, in declaration order. */
  const Platforms: seq<Platform> := [LinkedIn, Facebook, Instagram, YouTube]

  lemma PlatformsComplete(p: Platform)
    ensures p in Platforms
  {
    match p
    case LinkedIn => assert Platforms[0] == p;
    case Facebook => assert Platforms[1] == p;
    case Instagram => assert Platforms[2] == p;
    case YouTube => assert Platforms[3] == p;
  }

  /** A social field passes: empty, or matching its platform's pattern. */
  ghost predicate SocialOk(f: FormData, p: Platform) {
    SocialField(f, p) == "" || MatchesPattern(p, SocialField(f, p))
  }

  /**
   * `validateStep(1)`: collects the errors of the form (the name's under the
   * key `eventName`) and reports whether there are none.
   */
  method ValidateStep1(f: FormData) returns (ok: bool, errors: map<ErrorField, Message>)
    ensures EventName in errors <==> f.name == ""
    ensures EventName in errors ==> errors[EventName] == NameRequired
    ensures Description in errors <==> f.description == ""
    ensures Description in errors ==> errors[Description] == DescriptionRequired
    ensures forall p :: SocialUrl(p) in errors <==> !SocialOk(f, p)
    ensures forall p :: SocialUrl(p) in errors ==> errors[SocialUrl(p)] == InvalidUrl(p)
    ensures ok <==> |errors| == 0
    ensures ok <==> f.name != "" && f.description != "" && forall p :: SocialOk(f, p)
  {
    errors := map[];
    if f.name == "" {
      errors := errors[EventName := NameRequired];
    }
    if f.description == "" {
      errors := errors[Description := DescriptionRequired];
    }
    for i := 0 to |Platforms|
      invariant EventName in errors <==> f.name == ""
      invariant EventName in errors ==> errors[EventName] == NameRequired
      invariant Description in errors <==> f.description == ""
      invariant Description in errors ==> errors[Description] == DescriptionRequired
      invariant forall p :: SocialUrl(p) in errors <==> p in Platforms[..i] && !SocialOk(f, p)
      invariant forall p :: SocialUrl(p) in errors ==> errors[SocialUrl(p)] == InvalidUrl(p)
    {
      var p := Platforms[i];
      assert Platforms[..i + 1] == Platforms[..i] + [p];
      var url := SocialField(f, p);
      if url != "" {
        var v := ValidateSocialMediaUrl(p, url);
        if !v.isValid {
          errors := errors[SocialUrl(p) := v.message];
        }
      }
    }
    assert Platforms[..|Platforms|] == Platforms;
    forall p ensures p in Platforms {
      PlatformsComplete(p);
    }
    ok := |errors| == 0;
    if ok {
      assert errors == map[];
    } else {
      var k :| k in errors;
      match k
      case EventName =>
      case Description =>
      case SocialUrl(p) => assert !SocialOk(f, p);
    }
  }

  // ---------------------------------------------------------------------------
  // Request bodies

  /** An optional key of a request body: left out, or present with a value. */
  datatype ImageKey = Omitted | Included(value: JsVal)

  /** The JSON body sent to the speakers endpoint (also the `speakerData` object it is built from). */
  datatype SpeakerPayload = SpeakerPayload(
    name: JsVal, role: JsVal, description: JsVal, activityId: JsVal,
    linkedin: JsVal, facebook: JsVal, instagram: JsVal, youtube: JsVal,
    image: ImageKey)

  /** out is `src || null`. */
  predicate NullIfFalsy(src: JsVal, out: JsVal) {
    (Falsy(src) ==> out == Null) && (!Falsy(src) ==> out == src)
  }

  /** out is `src || ''`. */
  predicate EmptyIfFalsy(src: JsVal, out: JsVal) {
    (Falsy(src) ==> out == Str("")) && (!Falsy(src) ==> out == src)
  }

  /** `prepareImageUpload`: the attached file, or null when the image field holds no `File`. */
  function PrepareImageUpload(f: FormData): (r: JsVal)
    ensures r.FileObj? <==> f.image.FileObj?
    ensures r.FileObj? ==> r == f.image
    ensures !r.FileObj? ==> r == Null
  {
    if f.image.FileObj? then f.image else Null
  }

  /**
   * `prepareSpeakerData`: text fields as typed, activity and social fields
   * null when falsy, and `image: null` added only when there is neither a
   * new file nor a stored image.
   */
  function PrepareSpeakerData(f: FormData, imageToUpload: JsVal): (d: SpeakerPayload)
    ensures d.name == Str(f.name) && d.role == Str(f.role) && d.description == Str(f.description)
    ensures NullIfFalsy(f.activityId, d.activityId)
    ensures NullIfFalsy(Str(f.linkedin), d.linkedin) && NullIfFalsy(Str(f.facebook), d.facebook)
    ensures NullIfFalsy(Str(f.instagram), d.instagram) && NullIfFalsy(Str(f.youtube), d.youtube)
    ensures d.image == Included(Null) <==> Falsy(imageToUpload) && Falsy(f.imageUuid)
    ensures d.image == Omitted || d.image == Included(Null)
  {
    var base := SpeakerPayload(
      Str(f.name), Str(f.role), Str(f.description), Or(f.activityId, Null),
      Or(Str(f.linkedin), Null), Or(Str(f.facebook), Null),
      Or(Str(f.instagram), Null), Or(Str(f.youtube), Null),
      Omitted);
    if Falsy(imageToUpload) && Falsy(f.imageUuid) then base.(image := Included(Null)) else base
  }

  /** Fields every outgoing body shares: role and description '' when falsy, activity and social fields null when falsy. */
  predicate NormalisedFrom(d: SpeakerPayload, p: SpeakerPayload) {
    && p.name == d.name
    && EmptyIfFalsy(d.role, p.role) && EmptyIfFalsy(d.description, p.description)
    && NullIfFalsy(d.activityId, p.activityId)
    && NullIfFalsy(d.linkedin, p.linkedin) && NullIfFalsy(d.facebook, p.facebook)
    && NullIfFalsy(d.instagram, p.instagram) && NullIfFalsy(d.youtube, p.youtube)
  }

  /** An outgoing value is never `''`, `0` or undefined where the source sends null instead. */
  predicate NullOrTruthy(v: JsVal) {
    v == Null || !Falsy(v)
  }

  /** The body `addSpeaker` posts: it never carries an image key. */
  function AddSpeakerPayload(d: SpeakerPayload): (p: SpeakerPayload)
    ensures NormalisedFrom(d, p)
    ensures p.image == Omitted
    ensures NullOrTruthy(p.activityId) && NullOrTruthy(p.linkedin) && NullOrTruthy(p.facebook)
    ensures NullOrTruthy(p.instagram) && NullOrTruthy(p.youtube)
  {
    SpeakerPayload(
      d.name, Or(d.role, Str("")), Or(d.description, Str("")), Or(d.activityId, Null),
      Or(d.linkedin, Null), Or(d.facebook, Null), Or(d.instagram, Null), Or(d.youtube, Null),
      Omitted)
  }

  /** The value `speakerData.image` reads as in JavaScript. */
  function ImageValue(k: ImageKey): JsVal {
    if k.Included? then k.value else Undefined
  }

  /**
   * The body `updateSpeaker` patches with: the shared fields, plus `image: null`
   * when the draft's image is null, the draft's image when it is truthy and not
   * `'keep'`, and no image key otherwise.
   */
  method UpdateSpeakerPayload(d: SpeakerPayload) returns (p: SpeakerPayload)
    ensures NormalisedFrom(d, p)
    ensures ImageValue(d.image) == Null ==> p.image == Included(Null)
    ensures !Falsy(ImageValue(d.image)) && ImageValue(d.image) != Str("keep") ==> p.image == d.image
    ensures Falsy(ImageValue(d.image)) && ImageValue(d.image) != Null ==> p.image == Omitted
    ensures ImageValue(d.image) == Str("keep") ==> p.image == Omitted
  {
    p := AddSpeakerPayload(d);
    var image := ImageValue(d.image);
    if image == Null {
      p := p.(image := Included(Null));
    } else if !Falsy(image) && !StrictEq(image, Str("keep")) {
      p := p.(image := Included(image));
    }
  }

  /**
   * The body `handleSubmit` sends for a form: a create never carries an image
   * key; an update carries `image: null` exactly when no file is attached and
   * no image is stored, and never the file itself (the file goes to the media
   * upload afterwards).
   */
  method SubmitPayload(f: FormData, editMode: bool) returns (p: SpeakerPayload, imageToUpload: JsVal)
    ensures imageToUpload == if f.image.FileObj? then f.image else Null
    ensures p.name == Str(f.name) && p.role == Str(f.role) && p.description == Str(f.description)
    ensures NullIfFalsy(f.activityId, p.activityId)
    ensures p.linkedin == (if f.linkedin == "" then Null else Str(f.linkedin))
    ensures p.facebook == (if f.facebook == "" then Null else Str(f.facebook))
    ensures p.instagram == (if f.instagram == "" then Null else Str(f.instagram))
    ensures p.youtube == (if f.youtube == "" then Null else Str(f.youtube))
    ensures !editMode ==> p.image == Omitted
    ensures editMode ==> (p.image == Included(Null) <==> !f.image.FileObj? && Falsy(f.imageUuid))
    ensures p.image == Omitted || p.image == Included(Null)
  {
    imageToUpload := PrepareImageUpload(f);
    var d := PrepareSpeakerData(f, imageToUpload);
    if editMode {
      p := UpdateSpeakerPayload(d);
    } else {
      p := AddSpeakerPayload(d);
    }
  }
}
