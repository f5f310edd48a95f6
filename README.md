# jasmin-django-utils, modelled in Dafny

This project models the parts of `jasmin_django_utils` whose behaviour can be
stated over plain data, and proves properties of the model:

- **Typed settings** (`appsettings.py`). A `Setting` descriptor resolves a value
  from the user's overrides, then from its default (a plain value, or a callable
  given the owning `SettingsObject`), and otherwise raises `ImproperlyConfigured`.
  `ImportStringSetting` imports the dotted path it resolves to.
  `ObjectFactorySetting` calls a factory with the lower-cased `PARAMS`. It turns
  the factory's `TypeError` into a "Required setting(s)" or "Invalid setting"
  configuration error by reading the error message with two regular
  expressions and a substring test.
- **Argument binding** (`binding.dfy`). This models how CPython binds keyword
  arguments to a plain function and words its two binding errors. It also
  gives a direct check over the declared parameters. Together they show when
  the message-reading remap is right and where it fails.
- **Enum model field** (`enumfield.py`). `EnumField` stores a member of a Python
  `Enum` as its string value. Its width is the longest value and its choices
  are the members. The form mixin treats a live member and its stored string
  as the same value.
- **CSV export for the admin** (`admin.py`). This covers:
  - which fields may be exported;
  - how the selected primary keys travel as one comma-joined `ids` parameter
    and come back through the raw-id widget;
  - the initial export form;
  - the export loop, which writes a header only for more than one field and
    then one row per object.
- **JISCMail join behaviour** (`models/behaviours.py`). This is a class with the
  list name and the set of joined users. `Apply` mails the list's
  administrators and records the user, only the first time and never for a
  service user. Sent mail goes to an outbox.

Modules: `Results` (Python outcomes and exceptions), `Text` (the string
operations of Python used by the code), `AppSettings`, `ArgumentBinding`,
`EnumField`, `Admin` and `Behaviours`.

## Model

| member | source | states |
|---|---|---|
| AppSettings.Get | jasmin_django_utils/appsettings.py:45-54 | Class access (a false instance) and a non-`SettingsObject` owner raise TypeError. Otherwise the override is returned when the name is in the user settings, and the default is used when it is not. Only an owner can yield a value. |
| AppSettings.GetDefault | jasmin_django_utils/appsettings.py:56-62 | No default raises ImproperlyConfigured "Required setting: obj.name". A plain default is returned as it is. A callable default is called with the owner, and its raise propagates. |
| AppSettings.Assign | jasmin_django_utils/appsettings.py:64-66 | Every assignment raises AttributeError "Settings are read-only". |
| AppSettings.OverrideWins | jasmin_django_utils/appsettings.py:51-52 | An override is returned whatever the default is. |
| AppSettings.RequiredSettingNamed | jasmin_django_utils/appsettings.py:58-61 | A required setting with no override fails with ImproperlyConfigured, and the message contains both the settings object's name and the setting's name. |
| AppSettings.ImportStringGet | jasmin_django_utils/appsettings.py:75-76 | The resolved value is imported: an override is imported directly. A resolution error comes out unchanged, and then nothing is imported. |
| AppSettings.Subscript | jasmin_django_utils/appsettings.py:101-102 | Subscripting succeeds exactly when the value is a dict holding the key, and gives the value stored under that key. A dict without the key gives KeyError for that key; a non-dict gives TypeError. |
| AppSettings.Items | jasmin_django_utils/appsettings.py:102 | `.items()` succeeds exactly on a dict and gives its entries in order. Anything else raises AttributeError. |
| AppSettings.LowerKeys | jasmin_django_utils/appsettings.py:102 | The kwargs have distinct keys: the distinct lower-cased `PARAMS` keys in order of first occurrence. Each key holds the value of the last entry that lower-cases to it. |
| AppSettings.DedupWithin | jasmin_django_utils/appsettings.py:102 | Every keyword argument is some `PARAMS` key lower-cased. |
| AppSettings.WordRun | jasmin_django_utils/appsettings.py:97 | The `\w+` run at the start of a string: all word characters, ended by a non-word character or the end. |
| AppSettings.DigitRun | jasmin_django_utils/appsettings.py:95 | The `\d+` run at the start of a string, characterised the same way. |
| AppSettings.MissingArgSearchFinds | jasmin_django_utils/appsettings.py:109 | `re.search` of the missing-argument pattern succeeds exactly when the pattern matches at some position of the message. |
| AppSettings.FindQuoted | jasmin_django_utils/appsettings.py:97-112 | `findall` of the quoted-name pattern yields only `\w+` words. |
| AppSettings.ParamSettings | jasmin_django_utils/appsettings.py:110-113 | Each found name becomes `obj.setting.PARAMS.NAME`, upper-cased, in order, one per name. |
| AppSettings.RemapCallError | jasmin_django_utils/appsettings.py:105-126 | A call succeeds after the remap exactly when it succeeded, and non-TypeError errors pass through. A TypeError matching the missing-argument pattern gives "Required setting(s): …" built from every quoted name. Otherwise, one containing "got an unexpected keyword argument" gives "Invalid setting: …" for the first quoted name, or AttributeError when no name is quoted. Any other TypeError is re-raised unchanged. |
| AppSettings.ObjectFactoryGet | jasmin_django_utils/appsettings.py:99-126 | The steps run in the source's order, and the first failure is the result: resolving the definition, the `FACTORY` lookup, the import, the `PARAMS` lookup, then `.items()`. When all succeed, the result is the remapped call of the factory with the lower-cased `PARAMS`. |
| ArgumentBinding.FindFormatNames | jasmin_django_utils/appsettings.py:112 | Reading the quoted names back out of CPython's list (`'a'`, `'a' and 'b'`, `'a', 'b', and 'c'`) gives the names, when they are `\w+` words. |
| ArgumentBinding.MissingArgAtWording | jasmin_django_utils/appsettings.py:95 | The missing-argument pattern matches CPython's wording for any count and either plural. |
| ArgumentBinding.MissingArgNeedsColon | jasmin_django_utils/appsettings.py:95-109 | A message without `:` never matches the missing-argument pattern. |
| ArgumentBinding.ReadMissingMessage | jasmin_django_utils/appsettings.py:109-116 | A missing-arguments message is recognised, and its quoted names are exactly the missing parameters. |
| ArgumentBinding.ReadUnexpectedMessage | jasmin_django_utils/appsettings.py:117-123 | An unexpected-keyword message is not taken for a missing one. It contains the phrase looked for, and its first quoted name is the keyword. |
| ArgumentBinding.RemapAgreesWithSignature | jasmin_django_utils/appsettings.py:95-126 | For a plain function factory whose parameter and keyword names are `\w+` words, the remap gives exactly what the direct check gives. The first unexpected keyword becomes "Invalid setting". Otherwise every missing parameter becomes "Required setting(s)", in order. Otherwise the factory's result comes back. |
| ArgumentBinding.NonWordKeyRaisesAttributeError | jasmin_django_utils/appsettings.py:117-122 | When the first unexpected key is not a `\w+` word (`a-b`), the name pattern finds nothing and the read raises AttributeError rather than a configuration error. |
| ArgumentBinding.ObjectFactoryAgreesWithSignature | jasmin_django_utils/appsettings.py:99-126 | A well-formed factory setting whose `PARAMS` keys are words reads as the direct check over the lower-cased `PARAMS`. |
| ArgumentBinding.KeywordsAreWords | jasmin_django_utils/appsettings.py:102 | Word `PARAMS` keys stay words after lower-casing. |
| EnumField.MaxLength | jasmin_django_utils/enumfield.py:45 | Defined exactly when the enum has members; an empty enum gives ValueError. Every value fits the width, and some value attains it. |
| EnumField.Choices | jasmin_django_utils/enumfield.py:47 | One `(member, member name)` pair per member, in definition order. |
| EnumField.NewField | jasmin_django_utils/enumfield.py:42-51 | Construction fails exactly for an empty enum. Otherwise `max_length` is the length of the longest value: every value fits and one attains it. The choices are the members and no validators remain. |
| EnumField.Deconstruct | jasmin_django_utils/enumfield.py:53-60 | The enum is put before the inherited arguments. `max_length` and `choices` are removed and the other kwargs are kept unchanged. A missing `max_length`, then a missing `choices`, raises KeyError for that key. |
| EnumField.DeconstructRebuilds | jasmin_django_utils/enumfield.py:42-60 | Building a field again from the enum that `deconstruct` records gives the same field. |
| EnumField.GetDefault | jasmin_django_utils/enumfield.py:62-69 | Without a default, the inherited default is used. `None` stays `None` and a member of the enum stays itself. A string default gives the member with that value, and succeeds exactly when one exists. A member that is not one of this enum's members raises ValueError. |
| EnumField.GetChoices | jasmin_django_utils/enumfield.py:71-76 | Labels and false keys are kept, member keys become their values and the length is unchanged. It fails exactly when a key is a non-empty string, with AttributeError for the missing `.value`. |
| EnumField.ChoicesOffered | jasmin_django_utils/enumfield.py:71-76 | After a blank entry, the offered choices are each member's value with its name as label. |
| EnumField.TwoMemberChoices | jasmin_django_utils/enumfield.py:71-76 | The enum `A = "a"`, `B = "b"` offers `("a", "A")` and `("b", "B")`. |
| EnumField.GetPrepValue | jasmin_django_utils/enumfield.py:90-91 | A member is stored as its value and a false value as `None`. It fails exactly for a true plain string. |
| EnumField.ValueToString | jasmin_django_utils/enumfield.py:78-80 | Serialises the held value the same way as storing it. |
| EnumField.ToPython | jasmin_django_utils/enumfield.py:82-88 | A member of the enum is returned as it is and a false value gives `None`. Any result is a member. A non-empty string fails exactly when no member has it as value, and every failure is a ValueError. |
| EnumField.RoundTrip | jasmin_django_utils/enumfield.py:85-91 | Storing a member with a non-empty value and reading it back gives the member. |
| EnumField.StoredStringRoundTrip | jasmin_django_utils/enumfield.py:85-91 | A stored string that reads back as a member is stored again as the same string. |
| EnumField.EmptyValueLost | jasmin_django_utils/enumfield.py:85-91 | A member whose value is `''` is stored as `''` but read back as `None`. |
| EnumField.Coerce | jasmin_django_utils/enumfield.py:62-88 | `enum(v)`: a member is itself. A string finds the member with that value. A string with no such member, `None`, and a member of another enum raise ValueError, and every failure is a ValueError. |
| EnumField.PrepareValue | jasmin_django_utils/enumfield.py:17-23 | `None` is shown as `''`, a member as its value and a string as itself. |
| EnumField.PrepareValueAgrees | jasmin_django_utils/enumfield.py:17-23 | A member and its stored string are shown the same. |
| EnumField.ValidValue | jasmin_django_utils/enumfield.py:25-29 | A member is valid exactly when its value or its printed form `Class.NAME` is a choice key. A string is valid exactly when it is a key, and `None` exactly when `"None"` is. |
| EnumField.ValidMemberIffValue | jasmin_django_utils/enumfield.py:25-29 | A member is valid exactly when its stored string is, unless a choice key is the member's printed form. |
| EnumField.MembersAreValid | jasmin_django_utils/enumfield.py:25-29 | With the members' values as keys, every member and every member's value is valid. |
| Admin.AllowedFields | jasmin_django_utils/admin.py:80-88 | A name is allowed exactly when some field with that name is concrete and either not a relation, one-to-one, or many-to-one with a related model. |
| Admin.AllowedFieldsConcat | jasmin_django_utils/admin.py:80-88 | The filter keeps `get_fields` order: it distributes over concatenation. |
| Admin.AllowedFieldsAll | jasmin_django_utils/admin.py:80-88 | Every field is kept exactly when every field is exportable. |
| Admin.IdStrings | jasmin_django_utils/admin.py:27 | `str(pk)` for each selected key, in queryset order. |
| Admin.IdStringsCommaFree | jasmin_django_utils/admin.py:27 | A printed key never holds the separator. |
| Admin.IdStringsInjective | jasmin_django_utils/admin.py:27 | Different key lists print differently. |
| Admin.RedirectUrl | jasmin_django_utils/admin.py:22-28 | The base URL followed by `?ids=` and the keys joined by `,`. For a non-empty selection, the `ids` value splits back into the printed keys. |
| Admin.RedirectIdentifiesSelection | jasmin_django_utils/admin.py:22-28 | Two selections with the same redirect are equal. |
| Admin.RenderValue | jasmin_django_utils/admin.py:43-49 | No ids or an empty list is shown as `''`. A non-empty list is its ids joined with `,`, as long as the pieces plus one separator between each two. |
| Admin.ValueFromDatadict | jasmin_django_utils/admin.py:74-77 | There is a value exactly when the field was submitted non-empty. It is the submission split on `,`: one more piece than there are commas, none holding a comma. |
| Admin.SubmittedRendersBack | jasmin_django_utils/admin.py:43-77 | Rendering what was submitted shows the submitted string again, or `''` when nothing was submitted. |
| Admin.RenderedSubmitsBack | jasmin_django_utils/admin.py:47-77 | Submitting a rendered non-empty join of comma-free ids gives the ids back. |
| Admin.InitialForm | jasmin_django_utils/admin.py:127-131 | On GET, every allowed field is preselected. The objects are the `ids` parameter cut at every `,`: comma-free pieces, one more than there are commas, that join back to the parameter. Without the parameter they are `[""]`. |
| Admin.ActionPreselectsSelection | jasmin_django_utils/admin.py:25-131 | Following the export action's redirect preselects exactly the selected keys. |
| Admin.RowFor | jasmin_django_utils/admin.py:125 | A row's keys are exactly the selected fields, each holding the object's attribute. |
| Admin.RowsOf | jasmin_django_utils/admin.py:124-125 | One row per object, in order. |
| Admin.ExportShape | jasmin_django_utils/admin.py:119-125 | A header is written exactly when more than one field is selected. The line count is the object count plus the header. Every row's keys are the selected fields. |
| Admin.ExportResponse.WriteHeader | jasmin_django_utils/admin.py:123 | Appends the header line. |
| Admin.ExportResponse.WriteRow | jasmin_django_utils/admin.py:125 | Appends one row line. |
| Admin.ExportObjects | jasmin_django_utils/admin.py:114-126 | The lines written are the header when more than one field is selected, then one row per object. |
| Behaviours.JoinMail | jasmin_django_utils/models/behaviours.py:37-43 | The mail goes from the support address to the JISCMail addresses. The subject is `Adding <email> (<full name>) to <list> mailing list`, with the list name lower-cased. The body is `add <list> <email> ` followed by the full name. |
| Behaviours.JoinMailIgnoresCase | jasmin_django_utils/models/behaviours.py:38-39 | The mail does not depend on the list name's case. |
| Behaviours.ApplyEffect | jasmin_django_utils/models/behaviours.py:30-45 | A mail is sent exactly when the user is not a service user and has not joined. Then exactly that one mail is sent and the user joins. No other user's membership changes. |
| Behaviours.ApplyIdempotent | jasmin_django_utils/models/behaviours.py:30-45 | Applying twice to the same user sends nothing and changes nothing the second time. |
| Behaviours.MailsMatchNewMembers | jasmin_django_utils/models/behaviours.py:8-45 | Over any run of applications, the joined set only grows and one mail is sent per newly joined user. So no user is mailed twice. |
| Behaviours.JoinedStaysJoined | jasmin_django_utils/models/behaviours.py:34-36 | Once joined, a user stays joined. |
| Behaviours.Outbox.Send | jasmin_django_utils/models/behaviours.py:37-43 | Sending appends the mail to the outbox. |
| Behaviours.JoinJISCMailList.Apply | jasmin_django_utils/models/behaviours.py:30-45 | The joined set and the outbox change exactly as `ApplyEffect` says, and the list name is unchanged. |
| Behaviours.JoinJISCMailList.Unapply | jasmin_django_utils/models/behaviours.py:47-49 | Nothing changes. |
| Behaviours.JoinJISCMailList.Describe | jasmin_django_utils/models/behaviours.py:51-52 | `Join JISCMail List <` followed by the list name and `>`. |
| Behaviours.DescriptionsDiffer | jasmin_django_utils/models/behaviours.py:20-52 | Lists with different names are described differently. |

## Left out

- `import_string` and calling the factory are parameters of the model (`Runtime`), because they load and run code that is not part of this model.
- Regular expressions: only the three patterns used are modelled. `\w` and `\d` are ASCII only, and the model has no Unicode word characters or digits.
- `str.lower`/`str.upper` are ASCII only. Unicode case mapping is not modelled.
- AppSettings.GetDefault: a `Literal` default stands for a value that is not callable. The source calls any callable default, so a function or class given as a default is modelled as `Computed`, not as a `Literal` object.
- AppSettings.Value: dictionary keys are always strings, and a `Dict` may list a key twice, which a Python dict cannot. A non-string `PARAMS` key, which fails at `k.lower()`, is not expressible.
- EnumField.IsInstance: a member is identified by its name and value, not by its class. A member of another enum with the same name and value counts as a member of this one, where the source's `isinstance` fails and `enum(value)` raises ValueError.
- AppSettings.Subscript and AppSettings.Items: the messages of the TypeError and AttributeError raised on a non-dict value are stand-ins. CPython names the actual type in them.
- ArgumentBinding: only plain functions are modelled as factories, with positional-or-keyword parameters and no `*args`, `**kwargs` or keyword-only parameters. Classes are not modelled. A class with a Python `__init__` gets the same two messages under the qualname `Foo.__init__`. Builtins and classes without a Python `__init__` (`Foo() takes no arguments`) word their errors differently.
- ArgumentBinding.UnexpectedMessage: follows CPython's wording up to version 3.12. A later version may append `. Did you mean 'x'?`. Then `FindQuoted` of the message also yields the suggestion, and for a non-word key the remap reports the suggestion as the invalid setting instead of raising AttributeError.
- `SettingsObject` attribute lookup, `__set_name__` and descriptor dispatch are Python machinery. A setting is given with its bound name.
- EnumField: only plain `Enum` classes with string values are modelled. Their members are always true. `str`-mixin enums, whose empty-string member is false, are not modelled.
- EnumField.ValueToString: takes the value the field holds on the object. `_get_val_from_obj` belongs to Django and is not part of this model.
- EnumField.ValidValue: models Django's `ChoiceField.valid_value` over flat string keys. Option groups are not modelled.
- `EnumField.formfield`, `EnumChoiceField` and `EnumMultipleChoiceField` only select Django form classes.
- EnumField.PrepareValue: a single value only. Mixed into `EnumMultipleChoiceField`, it receives the whole list of selected values, which has no `.value`. The source then returns `force_text` of the list, a string such as `['a', 'b']`, and the model has no list value to express that.
- Admin: a primary key is a natural number printed in decimal. Other key types are not modelled, though the widget round trips hold for any comma-free strings.
- Admin: Django forms, the widget's HTML, URL reversing, `get_export_form`, the invalid-POST re-render and the `get_urls` patch are framework rendering and routing.
- Admin: CSV quoting, escaping and the HTTP response stream are I/O. The export is modelled as the header and row dictionaries written.
- Admin.InitialForm: takes the decoded query parameters. URL decoding is Django's.
- Behaviours: mail delivery, `save()` and the many-to-many queries are I/O. Sent mail is an outbox sequence and joined users a set of primary keys. The full name is a field of the user rather than `get_full_name()`.
- `crossdb.py`, `templatetags/mailto_support.py`, `api/hooks.py`, `api/permissions.py` and `setup.py` are not part of this model: they are database routing, template and REST-framework glue, and packaging.
