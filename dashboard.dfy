/**
 * The project page (src/client/src/modules/project/pages/Dashboard.jsx):
 * the numeric project id taken from the route, the customer suggestions
 * gathered from the project's tasks, and the link of the Export button.
 */
module Dashboard {
  import opened Wrappers
  import opened Text
  import opened Sequences
  import opened Js
  import opened ClientText
  import opened ProjectSchema

  /** `Number(projectId)` for the route parameter. */
  function ProjectId(param: string): Num {
    StringToNumber(param)
  }

  /** `tasks.map(t => t.customer).filter(Boolean)`. */
  function TruthyCustomers(tasks: seq<Task>): (r: seq<string>)
    ensures forall c :: c in r <==> exists i :: 0 <= i < |tasks| && Truthy(tasks[i].customer) && tasks[i].customer.value == c
  {
    if tasks == [] then []
    else
      var rest := TruthyCustomers(tasks[1..]);
      assert forall i :: 0 < i < |tasks| ==> tasks[i] == tasks[1..][i - 1];
      (if Truthy(tasks[0].customer) then [tasks[0].customer.value] else []) + rest
  }

  /** `customers`: `[...new Set(tasks.map(t => t.customer).filter(Boolean))]`. */
  function Customers(tasks: seq<Task>): seq<string> {
    Dedup(TruthyCustomers(tasks))
  }

  /**
   * The suggestions are exactly the non-empty customers of the tasks, each
   * once, in the order in which they first appear; no tasks, no suggestions.
   */
  lemma CustomersDistinct(tasks: seq<Task>)
    ensures forall c :: c in Customers(tasks) <==>
      exists i :: 0 <= i < |tasks| && Truthy(tasks[i].customer) && tasks[i].customer.value == c
    ensures NoDup(Customers(tasks))
    ensures forall c :: c in Customers(tasks) ==> c != ""
    ensures forall i, j :: 0 <= i < j < |Customers(tasks)| ==>
      IndexOf(TruthyCustomers(tasks), Customers(tasks)[i]) < IndexOf(TruthyCustomers(tasks), Customers(tasks)[j])
    ensures tasks == [] ==> Customers(tasks) == []
  {
    DedupFirstOccurrenceOrder(TruthyCustomers(tasks));
  }

  /** `${pid}` for a number: its decimal text, or `NaN`. */
  function NumText(n: Num): string {
    match n
    case Int(k) => IntToString(k)
    case NaN => "NaN"
  }

  /** The Export button's `href`. */
  function ExportLink(param: string): string {
    "/api/projects/" + NumText(ProjectId(param)) + "/images.zip"
  }

  /** For the route of a project id, the link names that id's archive. */
  lemma ExportLinkOfId(id: nat)
    ensures ExportLink(NatToString(id)) == "/api/projects/" + NatToString(id) + "/images.zip"
  {
    NumberOfRenderedNat(id);
  }
}
