/**
  The profile page (pages/UserDetails.tsx): the user named by the route is
  fetched once, copied into an edit form, edited field by field while edit
  mode is on, and saved by merging the form back into the record. Each
  asynchronous handler is one atomic step; the remote response is a
  parameter, and so is the URL the browser makes for a picked image.
 */
module UserDetailsPage {
  import opened Users
  import opened Api

  /** The `formData` object: the four editable keys of a user. */
  datatype Form = Form(firstName: string, lastName: string, email: string, avatar: string)

  const EmptyForm := Form("", "", "", "")

  /** The keys of `formData`, by the `name` attribute of the input that edits them. */
  datatype FormField = FirstNameField | LastNameField | EmailField | AvatarField

  /** The text inputs `first_name`, `last_name` and `email`; the avatar has a file input of its own. */
  type TextField = f: FormField | f != AvatarField witness FirstNameField

  function Get(form: Form, field: FormField): string
  {
    match field
    case FirstNameField => form.firstName
    case LastNameField => form.lastName
    case EmailField => form.email
    case AvatarField => form.avatar
  }

  /** `{ ...formData, [name]: value }`: the named key takes the value, every other key is kept. */
  function SetField(form: Form, field: FormField, value: string): (r: Form)
    ensures Get(r, field) == value
    ensures forall g :: g != field ==> Get(r, g) == Get(form, g)
  {
    match field
    case FirstNameField => form.(firstName := value)
    case LastNameField => form.(lastName := value)
    case EmailField => form.(email := value)
    case AvatarField => form.(avatar := value)
  }

  /** Setting a key to what it already holds changes nothing. */
  lemma SetFieldUnchanged(form: Form, field: FormField)
    ensures SetField(form, field, Get(form, field)) == form
  {
  }

  /** A later edit of the same key overrides the earlier one. */
  lemma SetFieldTwice(form: Form, field: FormField, v: string, w: string)
    ensures SetField(SetField(form, field, v), field, w) == SetField(form, field, w)
  {
  }

  /** Edits of different keys commute. */
  lemma SetFieldCommutes(form: Form, f: FormField, g: FormField, v: string, w: string)
    requires f != g
    ensures SetField(SetField(form, f, v), g, w) == SetField(SetField(form, g, w), f, v)
  {
  }

  /** The form `fetchUser` fills from a loaded user. */
  function FormOf(u: User): (r: Form)
    ensures Get(r, FirstNameField) == u.firstName && Get(r, LastNameField) == u.lastName
    ensures Get(r, EmailField) == u.email && Get(r, AvatarField) == u.avatar
  {
    Form(u.firstName, u.lastName, u.email, u.avatar)
  }

  /** `{ ...prevUser!, ...formData }`: the form's keys override the user's, the id is kept. */
  function Merge(u: User, form: Form): (r: User)
    ensures r.id == u.id
    ensures FormOf(r) == form
  {
    User(u.id, form.firstName, form.lastName, form.email, form.avatar)
  }

  /** Saving the form a user was loaded into, unedited, gives the same user back. */
  lemma MergeOwnForm(u: User)
    ensures Merge(u, FormOf(u)) == u
  {
  }

  /** A second save replaces everything the first one wrote. */
  lemma MergeTwice(u: User, a: Form, b: Form)
    ensures Merge(Merge(u, a), b) == Merge(u, b)
  {
  }

  /** What the page renders: the loading line, "User not found", or the profile. */
  datatype Screen = LoadingScreen | NotFoundScreen | ProfileScreen(user: User)

  /** `if (id)`: a route parameter that is present and not "". */
  predicate IdPresent(id: Option<string>)
  {
    id.Some? && id.value != ""
  }

  class UserDetails {
    /** The `:id` route parameter, fixed for the life of the page. */
    const id: Option<string>
    var user: Option<User>
    var loading: bool
    var isEditing: bool
    var formData: Form

    /** Edit mode is only ever on over a rendered profile. */
    ghost predicate Valid()
      reads this
    {
      isEditing ==> View().ProfileScreen?
    }

    /** Initial state: loading, nothing loaded, not editing, every form key "". */
    constructor (id: Option<string>)
      ensures Valid() && this.id == id
      ensures user == None && loading && !isEditing && formData == EmptyForm
      ensures View() == LoadingScreen
    {
      this.id := id;
      user := None;
      loading := true;
      isEditing := false;
      formData := EmptyForm;
    }

    /** `if (loading) …; if (!user) …; return …`. */
    function View(): (r: Screen)
      reads this
      ensures r.ProfileScreen? <==> !loading && user.Some?
      ensures r.ProfileScreen? ==> user == Some(r.user)
      ensures r == NotFoundScreen <==> !loading && user.None?
    {
      if loading then LoadingScreen
      else match user
        case None => NotFoundScreen
        case Some(u) => ProfileScreen(u)
    }

    /**
      The fetch effect. Without an id nothing is requested and the page stays
      as it is (initially: loading for good). With one, a loaded user becomes
      the record and fills every form key; a failure keeps the record
      (initially: none, so "User not found"). Loading is over either way.
     */
    method FetchUser(response: UserResponse) returns (requested: Option<string>, toast: Toast)
      requires Valid()
      modifies this`user, this`loading, this`formData
      ensures Valid()
      ensures !IdPresent(id) ==>
        requested == None && toast == NoToast
        && user == old(user) && loading == old(loading) && formData == old(formData)
      ensures IdPresent(id) ==> requested == id && !loading
      ensures IdPresent(id) && response.UserLoaded? ==>
        user == Some(response.data) && formData == FormOf(response.data) && toast == NoToast
      ensures IdPresent(id) && response.UserFailed? ==>
        user == old(user) && formData == old(formData) && toast == ErrorToast("Failed to fetch user details.")
    {
      if !IdPresent(id) {
        requested := None;
        toast := NoToast;
        return;
      }
      requested := id;
      loading := true;
      match response {
        case UserLoaded(data) =>
          user := Some(data);
          formData := FormOf(data);
          toast := NoToast;
        case UserFailed =>
          toast := ErrorToast("Failed to fetch user details.");
      }
      loading := false;
    }

    /** The Edit button, rendered on the profile while not editing. */
    method PressEdit()
      requires Valid()
      modifies this`isEditing
      ensures Valid()
      ensures old(View()).ProfileScreen? ==> isEditing
      ensures !old(View()).ProfileScreen? ==> isEditing == old(isEditing)
    {
      if View().ProfileScreen? && !isEditing {
        isEditing := true;
      }
    }

    /**
      `handleChange` on a text input. The inputs are disabled unless editing,
      so only then does typing reach the form, and then only the named key.
     */
    method HandleChange(field: TextField, value: string)
      modifies this`formData
      ensures old(View()).ProfileScreen? && isEditing ==> formData == SetField(old(formData), field, value)
      ensures !(old(View()).ProfileScreen? && isEditing) ==> formData == old(formData)
    {
      if View().ProfileScreen? && isEditing {
        formData := SetField(formData, field, value);
      }
    }

    /**
      `handleImageChange` on the file input, which exists only while editing.
      `picked` is the object URL the browser creates for the first chosen
      file, or None when no file was chosen; only the avatar key changes.
     */
    method HandleImageChange(picked: Option<string>)
      modifies this`formData
      ensures old(View()).ProfileScreen? && isEditing && picked.Some? ==>
        formData == SetField(old(formData), AvatarField, picked.value)
      ensures !(old(View()).ProfileScreen? && isEditing && picked.Some?) ==> formData == old(formData)
    {
      if View().ProfileScreen? && isEditing && picked.Some? {
        formData := SetField(formData, AvatarField, picked.value);
      }
    }

    /**
      `handleSubmit`, the Save button shown in edit mode. The whole form is
      sent; on success it is merged into the record and edit mode ends, on
      failure the record, the form and edit mode are all kept.
     */
    method HandleSubmit(response: UpdateResponse) returns (request: Option<Form>, toast: Toast)
      requires Valid()
      modifies this`user, this`isEditing
      ensures Valid()
      ensures !(old(View()).ProfileScreen? && old(isEditing)) ==>
        request == None && toast == NoToast && user == old(user) && isEditing == old(isEditing)
      ensures old(View()).ProfileScreen? && old(isEditing) ==> request == Some(formData)
      ensures old(View()).ProfileScreen? && old(isEditing) && response == Updated ==>
        user == Some(Merge(old(user).value, formData)) && !isEditing
        && toast == SuccessToast("User updated successfully!")
      ensures response == UpdateFailed ==> user == old(user) && isEditing == old(isEditing)
      ensures old(View()).ProfileScreen? && old(isEditing) && response == UpdateFailed ==>
        toast == ErrorToast("Failed to update user.")
    {
      if !(View().ProfileScreen? && isEditing) {
        request := None;
        toast := NoToast;
        return;
      }
      request := Some(formData);
      match response {
        case Updated =>
          user := Some(Merge(user.value, formData));
          isEditing := false;
          toast := SuccessToast("User updated successfully!");
        case UpdateFailed =>
          toast := ErrorToast("Failed to update user.");
      }
    }
  }

  /** Load, edit the first name, save: only the first name of the record changes. */
  method EditExample()
  {
    var ann := User(1, "Ann", "Lee", "ann@x.io", "a.png");
    var page := new UserDetails(Some("1"));
    var requested, toast := page.FetchUser(UserLoaded(ann));
    assert page.View() == ProfileScreen(ann);
    page.PressEdit();
    page.HandleChange(FirstNameField, "Anna");
    var request;
    request, toast := page.HandleSubmit(Updated);
    assert page.user == Some(User(1, "Anna", "Lee", "ann@x.io", "a.png"));
    assert !page.isEditing;
  }

  /** A failed save keeps edit mode and the typed text, and the record as loaded. */
  method FailedSaveExample()
  {
    var ann := User(1, "Ann", "Lee", "ann@x.io", "a.png");
    var page := new UserDetails(Some("1"));
    var requested, toast := page.FetchUser(UserLoaded(ann));
    page.PressEdit();
    page.HandleChange(EmailField, "ann@y.io");
    var request;
    request, toast := page.HandleSubmit(UpdateFailed);
    assert page.user == Some(ann) && page.isEditing;
    assert page.formData == Form("Ann", "Lee", "ann@y.io", "a.png");
    assert toast == ErrorToast("Failed to update user.");
  }

  /** A failed load shows "User not found", where Edit does nothing. */
  method NotFoundExample()
  {
    var page := new UserDetails(Some("99"));
    var requested, toast := page.FetchUser(UserFailed);
    assert page.View() == NotFoundScreen;
    page.PressEdit();
    assert !page.isEditing;
  }
}
