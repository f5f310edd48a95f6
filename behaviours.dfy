/**
 * The behaviour that subscribes a user to a JISCMail mailing list
 * (`jasmin_django_utils/models/behaviours.py`): the first time it is applied
 * to a user who is not a service user it mails the list's administrators
 * and records the user as joined; afterwards it does nothing for that user.
 *
 * The many-to-many relation of joined users is the set of their primary
 * keys, and sending a mail appends it to an outbox.
 */
module Behaviours {
  import opened Text

  datatype User = User(pk: nat, email: string, fullName: string, serviceUser: bool)

  datatype Mail = Mail(subject: string, body: string, from: string, to: seq<string>)

  /** The site settings the mail is addressed with. */
  datatype MailSettings = MailSettings(supportEmail: string, jiscmailToAddrs: seq<string>)

  /** The mails sent so far. */
  class Outbox {
    var sent: seq<Mail>

    constructor ()
      ensures sent == []
    {
      sent := [];
    }

    /** `django.core.mail.send_mail` */
    method Send(m: Mail)
      modifies this
      ensures sent == old(sent) + [m]
    {
      sent := sent + [m];
    }
  }

  /**
   * The subscription request: from the support address to the JISCMail
   * addresses, naming the lower-cased list and the user's email and full name.
   */
  function JoinMail(listName: string, user: User, settings: MailSettings): (m: Mail)
    ensures m.from == settings.supportEmail && m.to == settings.jiscmailToAddrs
    ensures Contains(m.subject, user.email) && Contains(m.subject, user.fullName)
    ensures Contains(m.subject, Lower(listName))
    ensures m.subject == "Adding " + user.email + " (" + user.fullName + ") to " + Lower(listName) + " mailing list"
    ensures StartsWith(m.body, "add " + Lower(listName) + " " + user.email + " ")
    ensures m.body[|"add " + Lower(listName) + " " + user.email + " "|..] == user.fullName
  {
    var list := Lower(listName);
    var subject := "Adding " + user.email + " (" + user.fullName + ") to " + list + " mailing list";
    var body := "add " + list + " " + user.email + " " + user.fullName;
    var tail := " mailing list";
    var afterName := ") to " + list + tail;
    var afterEmail := " (" + user.fullName + afterName;
    assert subject == "Adding " + user.email + afterEmail;
    ContainsInside("Adding ", user.email, afterEmail);
    assert subject == ("Adding " + user.email + " (") + user.fullName + afterName;
    ContainsInside("Adding " + user.email + " (", user.fullName, afterName);
    assert subject == ("Adding " + user.email + " (" + user.fullName + ") to ") + list + tail;
    ContainsInside("Adding " + user.email + " (" + user.fullName + ") to ", list, tail);
    assert body[..|"add " + list + " " + user.email + " "|] == "add " + list + " " + user.email + " ";
    assert body[|"add " + list + " " + user.email + " "|..] == user.fullName;
    Mail(subject, body, settings.supportEmail, settings.jiscmailToAddrs)
  }

  /** The list name's case does not matter: the mail is the same for any spelling. */
  lemma JoinMailIgnoresCase(listName: string, user: User, settings: MailSettings)
    ensures JoinMail(Lower(listName), user, settings) == JoinMail(listName, user, settings)
  {
    LowerIdempotent(listName);
  }

  /** What applying the behaviour to one user does: the new joined set and the mails sent. */
  datatype Effect = Effect(joined: set<nat>, mails: seq<Mail>)

  /**
   * `apply(user)` on the joined set: a service user or a user who has joined
   * already changes nothing; anyone else is mailed once and joins.
   */
  function ApplyEffect(listName: string, settings: MailSettings, joined: set<nat>, user: User): (r: Effect)
    ensures r.mails != [] <==> !user.serviceUser && user.pk !in joined
    ensures r.mails == [] ==> r.joined == joined
    ensures r.mails != [] ==> r.joined == joined + {user.pk} && r.mails == [JoinMail(listName, user, settings)]
    ensures r.joined - {user.pk} == joined - {user.pk}
    ensures user.pk in r.joined <==> user.pk in joined || !user.serviceUser
  {
    if user.serviceUser then Effect(joined, [])
    else if user.pk in joined then Effect(joined, [])
    else Effect(joined + {user.pk}, [JoinMail(listName, user, settings)])
  }

  /** Applying twice to the same user does no more than applying once. */
  lemma ApplyIdempotent(listName: string, settings: MailSettings, joined: set<nat>, user: User)
    ensures var first := ApplyEffect(listName, settings, joined, user);
      ApplyEffect(listName, settings, first.joined, user) == Effect(first.joined, [])
  {
  }

  /** Applying the behaviour to each user in turn. */
  function ApplyAll(listName: string, settings: MailSettings, joined: set<nat>, users: seq<User>): Effect
    decreases |users|
  {
    if users == [] then Effect(joined, [])
    else
      var first := ApplyEffect(listName, settings, joined, users[0]);
      var rest := ApplyAll(listName, settings, first.joined, users[1..]);
      Effect(rest.joined, first.mails + rest.mails)
  }

  /**
   * Over any run of applications, one mail is sent per user who newly joins
   * and the joined set only grows: each user is mailed at most once.
   */
  lemma {:induction false} MailsMatchNewMembers(listName: string, settings: MailSettings,
                                                 joined: set<nat>, users: seq<User>)
    ensures var r := ApplyAll(listName, settings, joined, users);
      joined <= r.joined && |r.mails| == |r.joined - joined|
    decreases |users|
  {
    if users != [] {
      var first := ApplyEffect(listName, settings, joined, users[0]);
      MailsMatchNewMembers(listName, settings, first.joined, users[1..]);
      var r := ApplyAll(listName, settings, joined, users);
      if first.mails != [] {
        assert r.joined - joined == (r.joined - first.joined) + {users[0].pk};
        assert users[0].pk !in r.joined - first.joined;
      }
    }
  }

  /** Once a user has joined, applying the behaviour to anyone leaves them joined. */
  lemma {:induction false} JoinedStaysJoined(listName: string, settings: MailSettings,
                                              joined: set<nat>, users: seq<User>, pk: nat)
    requires pk in joined
    ensures pk in ApplyAll(listName, settings, joined, users).joined
    decreases |users|
  {
    if users != [] {
      var first := ApplyEffect(listName, settings, joined, users[0]);
      JoinedStaysJoined(listName, settings, first.joined, users[1..], pk);
    }
  }

  /** `JoinJISCMailListBehaviour`: a mailing list and the users already joined to it. */
  class JoinJISCMailList {
    var listName: string
    var joinedUsers: set<nat>

    constructor (listName: string)
      ensures this.listName == listName && joinedUsers == {}
    {
      this.listName := listName;
      joinedUsers := {};
    }

    /**
     * `apply(user)`: sends the subscription mail and records the user, unless
     * the user is a service user or has joined already.
     */
    method Apply(user: User, settings: MailSettings, outbox: Outbox)
      modifies this, outbox
      ensures listName == old(listName)
      ensures joinedUsers == ApplyEffect(listName, settings, old(joinedUsers), user).joined
      ensures outbox.sent == old(outbox.sent) + ApplyEffect(listName, settings, old(joinedUsers), user).mails
    {
      if user.serviceUser {
        return;
      }
      if user.pk in joinedUsers {
        return;
      }
      outbox.Send(JoinMail(listName, user, settings));
      joinedUsers := joinedUsers + {user.pk};
    }

    /** `unapply(user)`: users unsubscribe themselves, so nothing changes. */
    method Unapply(user: User)
      ensures unchanged(this)
    {
    }

    /** `__str__` */
    function Describe(): (r: string)
      reads this
      ensures |r| == |listName| + 21
      ensures r[..20] == "Join JISCMail List <" && r[|r| - 1] == '>'
      ensures r[20..|r| - 1] == listName
    {
      "Join JISCMail List <" + listName + ">"
    }
  }

  /** Two lists with different names are described differently. */
  lemma DescriptionsDiffer(a: JoinJISCMailList, b: JoinJISCMailList)
    requires a.listName != b.listName
    ensures a.Describe() != b.Describe()
  {
  }
}
