/** The form that creates a todo: its fields, the submit handler and the
    location request. */
module TodoForm {
  import opened Base
  import opened Strings

  /** What the form hands to `onCreateTodo`; an absent field is `undefined`. */
  datatype NewTask = NewTask(title: string, photoUri: Option<string>, location: Option<Coords>)

  /** `photoUri || undefined`: both `null` and the empty string are falsy. */
  function PhotoField(photoUri: Option<string>): Option<string> {
    if photoUri.Some? && photoUri.value != "" then photoUri else None
  }

  /** How `handleCreateTodo` reacts to the form before anything is awaited. */
  datatype Reaction =
    | TitleRequired
    | Busy
    | Submit(task: NewTask)

  /** The title is checked first, on its trimmed text; then a running creation
      or location request makes the press do nothing; otherwise the trimmed
      title, the photo if any and the location are sent. */
  function CreateReaction(title: string, photoUri: Option<string>, location: Option<Coords>,
                          isCreating: bool, isLoadingLocation: bool): (r: Reaction)
    ensures r.TitleRequired? <==> Trim(title) == ""
    ensures r.Busy? <==> Trim(title) != "" && (isCreating || isLoadingLocation)
    ensures r.Submit? <==> Trim(title) != "" && !isCreating && !isLoadingLocation
    ensures r.Submit? ==> r.task.title == Trim(title) && r.task.location == location
    ensures r.Submit? ==> r.task.photoUri != Some("")
    ensures r.Submit? && photoUri != Some("") ==> r.task.photoUri == photoUri
  {
    var trimmed := Trim(title);
    if trimmed == "" then TitleRequired
    else if isCreating || isLoadingLocation then Busy
    else Submit(NewTask(trimmed, PhotoField(photoUri), location))
  }

  /** The title sent is never empty and has no whitespace at its ends, so
      sending it again would send the same title. */
  lemma SubmittedTitleIsTrimmed(title: string, photoUri: Option<string>, location: Option<Coords>)
    requires CreateReaction(title, photoUri, location, false, false).Submit?
    ensures var t := CreateReaction(title, photoUri, location, false, false).task.title;
      t != "" && IsTrimmed(t) && Trim(t) == t
  {
    TrimIdempotent(title);
  }

  /** Padding the title never changes the reaction. */
  lemma ReactionIgnoresPadding(a: string, title: string, b: string, photoUri: Option<string>,
                               location: Option<Coords>, isCreating: bool, isLoadingLocation: bool)
    requires AllSpace(a) && AllSpace(b)
    ensures CreateReaction(a + title + b, photoUri, location, isCreating, isLoadingLocation)
         == CreateReaction(title, photoUri, location, isCreating, isLoadingLocation)
  {
    TrimIgnoresPadding(a, title, b);
  }

  /** The create button is disabled exactly when a press would be ignored as
      busy, provided there is a title. */
  lemma DisabledExactlyWhenBusy(title: string, photoUri: Option<string>, location: Option<Coords>,
                                isCreating: bool, isLoadingLocation: bool)
    requires Trim(title) != ""
    ensures CreateReaction(title, photoUri, location, isCreating, isLoadingLocation).Busy?
        <==> CreateButtonDisabled(isCreating, isLoadingLocation)
  {
  }

  /** The `disabled` condition of the create button. */
  predicate CreateButtonDisabled(isCreating: bool, isLoadingLocation: bool) {
    isCreating || isLoadingLocation
  }

  /** How the location request ends: permission refused, a position, or an
      exception from either call. */
  datatype LocationOutcome = Denied | Position(coords: Coords) | Failed

  /** The form's state. */
  class TodoFormState {
    var title: string
    var photoUri: Option<string>
    var location: Option<Coords>
    var isCreating: bool
    var isLoadingLocation: bool

    constructor()
      ensures title == "" && photoUri == None && location == None
      ensures !isCreating && !isLoadingLocation
    {
      title, photoUri, location := "", None, None;
      isCreating, isLoadingLocation := false, false;
    }

    /** The `disabled` condition of the create button. */
    predicate CreateDisabled()
      reads this
    {
      CreateButtonDisabled(isCreating, isLoadingLocation)
    }

    /** `onChangeText` of the title input. */
    method EditTitle(text: string)
      modifies this
      ensures title == text
      ensures photoUri == old(photoUri) && location == old(location)
      ensures isCreating == old(isCreating) && isLoadingLocation == old(isLoadingLocation)
    {
      title := text;
    }

    /** `setPhotoUri`: a taken picture's URI, or `None` from the remove button. */
    method SetPhoto(uri: Option<string>)
      modifies this
      ensures photoUri == uri
      ensures title == old(title) && location == old(location)
      ensures isCreating == old(isCreating) && isLoadingLocation == old(isLoadingLocation)
    {
      photoUri := uri;
    }

    /** `handleCreateTodo` up to the awaited call: only a submission changes
        state, by raising `isCreating`, and it returns the task to send. */
    method BeginCreate() returns (call: Option<NewTask>)
      modifies this
      ensures var r := CreateReaction(title, photoUri, location, old(isCreating), isLoadingLocation);
        && (call.Some? <==> r.Submit?)
        && (call.Some? ==> call.value == r.task)
      ensures isCreating == (old(isCreating) || call.Some?)
      ensures title == old(title) && photoUri == old(photoUri) && location == old(location)
      ensures isLoadingLocation == old(isLoadingLocation)
    {
      var trimmed := Trim(title);
      if trimmed == "" {
        return None;
      }
      if isCreating || isLoadingLocation {
        return None;
      }
      isCreating := true;
      call := Some(NewTask(trimmed, PhotoField(photoUri), location));
    }

    /** `handleCreateTodo` after the awaited call: a success clears the form, a
        failure keeps it for a retry, and `isCreating` ends false either way. */
    method FinishCreate(succeeded: bool)
      modifies this
      ensures !isCreating
      ensures succeeded ==> title == "" && photoUri == None && location == None
      ensures !succeeded ==> title == old(title) && photoUri == old(photoUri) && location == old(location)
      ensures isLoadingLocation == old(isLoadingLocation)
    {
      if succeeded {
        title := "";
        photoUri := None;
        location := None;
      }
      isCreating := false;
    }

    /** `handleCreateTodo`, with `succeeded` standing for whether `onCreateTodo`
        resolves when it is called. */
    method HandleCreateTodo(succeeded: bool) returns (call: Option<NewTask>)
      modifies this
      ensures var r := old(CreateReaction(title, photoUri, location, isCreating, isLoadingLocation));
        && (call.Some? <==> r.Submit?)
        && (call.Some? ==> call.value == r.task)
      ensures call.None? ==>
        title == old(title) && photoUri == old(photoUri) && location == old(location)
        && isCreating == old(isCreating)
      ensures call.Some? && succeeded ==> title == "" && photoUri == None && location == None
      ensures call.Some? && !succeeded ==> title == old(title) && photoUri == old(photoUri) && location == old(location)
      ensures call.Some? ==> !isCreating
      ensures isLoadingLocation == old(isLoadingLocation)
    {
      call := BeginCreate();
      if call.Some? {
        FinishCreate(succeeded);
      }
    }

    /** `handleGetLocation` before the permission request. */
    method BeginGetLocation()
      modifies this
      ensures isLoadingLocation
      ensures title == old(title) && photoUri == old(photoUri) && location == old(location)
      ensures isCreating == old(isCreating)
    {
      isLoadingLocation := true;
    }

    /** `handleGetLocation` once the requests have settled: only a position
        changes the location, and `isLoadingLocation` ends false on every path. */
    method FinishGetLocation(outcome: LocationOutcome)
      modifies this
      ensures !isLoadingLocation
      ensures location == if outcome.Position? then Some(outcome.coords) else old(location)
      ensures title == old(title) && photoUri == old(photoUri) && isCreating == old(isCreating)
    {
      match outcome {
        case Denied =>
          isLoadingLocation := false;
          return;
        case Position(coords) =>
          location := Some(coords);
        case Failed =>
      }
      isLoadingLocation := false;
    }

    /** `handleGetLocation`, with `outcome` standing for how the two location
        requests end. */
    method HandleGetLocation(outcome: LocationOutcome)
      modifies this
      ensures !isLoadingLocation
      ensures location == if outcome.Position? then Some(outcome.coords) else old(location)
      ensures title == old(title) && photoUri == old(photoUri) && isCreating == old(isCreating)
    {
      BeginGetLocation();
      FinishGetLocation(outcome);
    }
  }

  /** A failed creation can be retried as it was: the second press sends the
      same task, and once it succeeds the form is empty and a third press sends
      nothing. */
  method RetrySendsSameTask(title: string, photo: Option<string>, outcome: LocationOutcome)
    returns (first: Option<NewTask>, second: Option<NewTask>, third: Option<NewTask>)
    ensures first.Some? <==> Trim(title) != ""
    ensures second == first
    ensures first.Some? ==> first.value.title == Trim(title)
    ensures first.Some? ==> first.value.photoUri == if photo == Some("") then None else photo
    ensures third == None
  {
    var form := new TodoFormState();
    form.EditTitle(title);
    form.SetPhoto(photo);
    form.HandleGetLocation(outcome);
    first := form.HandleCreateTodo(false);
    second := form.HandleCreateTodo(true);
    third := form.HandleCreateTodo(true);
  }
}
