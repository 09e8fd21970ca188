/** The user record of server/models/User.js: its setters (trim, lowercase),
    validators (required, minlength 6), defaults, the pre-save hook that
    hashes a modified password, and `comparePassword`. The hash function
    and its comparison are the bcrypt library's and are parameters here. */
module UserSchema {
  import opened Base
  import opened Text

  datatype Theme = Light | Dark

  /** The password hashing library: `hash` stands for `bcrypt.hash(p, 12)`
      (its salt included) and `compare` for `bcrypt.compare`. */
  datatype Hasher = Hasher(hash: string -> string, compare: (string, string) -> bool)

  /** The one property assumed of the library: a password matches its own hash. */
  ghost predicate Sound(h: Hasher) {
    forall p :: h.compare(p, h.hash(p))
  }

  const MinPasswordLength: nat := 6

  /** A stored user. */
  datatype User = User(
    id: UserId,
    name: string,
    email: string,
    password: string,
    age: Option<int>,
    profileImage: string,
    theme: Theme,
    createdAt: Timestamp,
    updatedAt: Timestamp)

  /** The fields a registration supplies; the others take their defaults. */
  datatype UserInput = UserInput(name: string, email: string, password: string)

  datatype Violation = Required(path: string) | TooShort(path: string, minimum: nat)

  /** The validators that fail on the values as the setters leave them:
      `name` after trimming and `email` after lower-casing must be
      non-empty; `password` must be non-empty and at least 6 UTF-16 code
      units long, as `minlength` counts. */
  function UserViolations(name: string, email: string, password: string): (vs: seq<Violation>)
    ensures vs == [] <==> name != "" && email != "" && Utf16Length(password) >= MinPasswordLength
  {
    (if name == "" then [Required("name")] else [])
    + (if email == "" then [Required("email")] else [])
    + (if password == "" then [Required("password")]
       else if Utf16Length(password) < MinPasswordLength then [TooShort("password", MinPasswordLength)]
       else [])
  }

  /** Registration input is valid when the trimmed name and the email are
      non-empty and the password has at least 6 UTF-16 code units. */
  lemma InputViolations(input: UserInput)
    ensures UserViolations(Trim(input.name), ToLower(input.email), input.password) == []
        <==> !IsBlank(input.name) && input.email != "" && Utf16Length(input.password) >= MinPasswordLength
  {
    TrimEmptyIffBlank(input.name);
  }

  /** A password of three emoji meets `minlength: 6`. */
  lemma EmojiPasswordIsLongEnough(name: string, email: string)
    requires name != "" && email != ""
    ensures UserViolations(name, email, "\U{1F600}\U{1F600}\U{1F600}") == []
  {
    ThreeEmojiAreSixUnits();
  }

  /** The pre-save hook: re-hashes the password only if it was modified. */
  function HashIfModified(password: string, modified: bool, h: Hasher): (r: string)
    ensures !modified ==> r == password
    ensures modified && Sound(h) ==> h.compare(password, r)
  {
    if modified then h.hash(password) else password
  }

  /** `comparePassword(candidate)`: the library's verdict on the stored hash. */
  function ComparePassword(h: Hasher, u: User, candidate: string): (r: bool)
    ensures Sound(h) && u.password == h.hash(candidate) ==> r
  {
    h.compare(candidate, u.password)
  }

  /** A user document as Mongoose holds it between assignment and save. */
  class UserDocument {
    var name: string
    var email: string
    var password: string
    var age: Option<int>
    var profileImage: string
    var theme: Theme
    /** `isModified('password')` */
    var passwordModified: bool

    /** A new document from registration input: setters trim the name and
        lower-case the email; age is null, profileImage '' and theme light by
        default; every path of a new document counts as modified. */
    constructor (input: UserInput)
      ensures name == Trim(input.name) && email == ToLower(input.email) && password == input.password
      ensures age == None && profileImage == "" && theme == Light
      ensures passwordModified
    {
      name := Trim(input.name);
      email := ToLower(input.email);
      password := input.password;
      age := None;
      profileImage := "";
      theme := Light;
      passwordModified := true;
    }

    /** Assigning a new password marks it modified. */
    method SetPassword(p: string)
      modifies this
      ensures password == p && passwordModified
      ensures name == old(name) && email == old(email)
      ensures age == old(age) && profileImage == old(profileImage) && theme == old(theme)
    {
      password := p;
      passwordModified := true;
    }

    /** `userSchema.pre('save')`: hashes the password if it was modified. */
    method PreSave(h: Hasher)
      modifies this`password
      ensures password == HashIfModified(old(password), passwordModified, h)
    {
      if !passwordModified {
        return;
      }
      password := h.hash(password);
    }

    /** `save()`: validation first (on the plain password), then the hook;
        afterwards nothing counts as modified. A failed validation changes nothing. */
    method Save(h: Hasher) returns (errors: seq<Violation>)
      modifies this
      ensures errors == UserViolations(old(name), old(email), old(password))
      ensures errors != [] ==> password == old(password) && passwordModified == old(passwordModified)
      ensures errors == [] ==> password == HashIfModified(old(password), old(passwordModified), h) && !passwordModified
      ensures name == old(name) && email == old(email)
      ensures age == old(age) && profileImage == old(profileImage) && theme == old(theme)
    {
      errors := UserViolations(name, email, password);
      if errors != [] {
        return;
      }
      PreSave(h);
      passwordModified := false;
    }

    function Snapshot(id: UserId, now: Timestamp): User
      reads this
    {
      User(id, name, email, password, age, profileImage, theme, now, now)
    }
  }

  /** The user `User.create(input)` stores. */
  function NewUser(input: UserInput, h: Hasher, id: UserId, now: Timestamp): (u: User)
    ensures u.id == id && u.createdAt == now && u.updatedAt == now
    ensures u.name == Trim(input.name) && u.email == ToLower(input.email)
    ensures u.age.None? && u.profileImage == "" && u.theme == Light
    ensures Sound(h) ==> ComparePassword(h, u, input.password)
  {
    User(id, Trim(input.name), ToLower(input.email), h.hash(input.password), None, "", Light, now, now)
  }

  /** Saving twice hashes once: the second save leaves the stored hash as
      it is, and with a sound library the original password still matches it. */
  method SaveTwice(h: Hasher, input: UserInput) returns (stored: string)
    requires UserViolations(Trim(input.name), ToLower(input.email), input.password) == []
    ensures stored == h.hash(input.password)
    ensures Sound(h) ==> h.compare(input.password, stored)
  {
    var doc := new UserDocument(input);
    var first := doc.Save(h);
    var second := doc.Save(h);
    stored := doc.password;
  }
}
