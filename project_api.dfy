/**
 * The project module's client API object (src/client/src/modules/project/api.js):
 * a default export holding four promise-returning methods. A view calls
 * `api.<name>(...)`; a name the object does not hold reads as `undefined`,
 * and calling it throws a `TypeError` before any request goes out. The
 * server's answer to a request that is made is a parameter.
 */
module ProjectApi {
  /** The methods `api.js` exports. */
  const Exported: set<string> := {"listTasks", "insertTask", "updateTask", "deleteTask"}

  /** The contact methods `ContactList.jsx` and `Contacts.jsx` call on that object. */
  const ContactMethods: set<string> := {"listContacts", "listAllContacts", "insertContact", "updateContact", "deleteContact"}

  /** The object the contact views expect: the four task methods and the five contact ones. */
  const WithContacts: set<string> := Exported + ContactMethods

  /** How the server answers a request: success, or the error `json` throws with its message. */
  datatype Answer = Ok | Failed(message: string)

  /** How `api.<name>(...)` ends for the code after it. */
  datatype Settled = Threw | Answered(answer: Answer)

  /** Calling `api.<name>(...)` on an object holding the methods `api`, the server answering `answer`. */
  function Call(api: set<string>, name: string, answer: Answer): (s: Settled)
    ensures s.Threw? <==> name !in api
  {
    if name in api then Answered(answer) else Threw
  }

  /**
   * None of the contact methods is exported: each call of one throws, whatever
   * the server would have answered. On the object the views expect, each
   * call settles with the server's answer.
   */
  lemma ContactMethodsMissing(answer: Answer)
    ensures forall m :: m in ContactMethods ==> Call(Exported, m, answer) == Threw
    ensures forall m :: m in ContactMethods ==> Call(WithContacts, m, answer) == Answered(answer)
    ensures Call(Exported, "insertContact", answer) == Threw && Call(WithContacts, "insertContact", answer) == Answered(answer)
    ensures Call(Exported, "updateContact", answer) == Threw && Call(WithContacts, "updateContact", answer) == Answered(answer)
  {
    forall m | m in ContactMethods ensures m !in Exported {
      assert |m| >= 12;
    }
    assert "insertContact" in ContactMethods && "updateContact" in ContactMethods;
  }
}
