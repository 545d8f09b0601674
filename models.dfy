/** The record shapes of models.py: the role enum, users, documents and audit entries. */
module Models {
  import opened Wrappers

  /** The three access roles. Executive outranks Manager, which outranks Employee. */
  datatype Role = Executive | Manager | Employee {

    /** Seniority of the role; only used to state the access rules, the source never computes it. */
    function Rank(): nat {
      match this
      case Employee => 0
      case Manager => 1
      case Executive => 2
    }
  }

  /** A clock reading; the source stores `datetime.now()`, here the caller supplies the value. */
  type Timestamp = nat

  /** A registered user (creation time left out). */
  datatype User = User(
    username: string,
    hashedPassword: string,
    role: Role,
    department: string,
    lastLogin: Option<Timestamp>)

  /** The `metadata` dictionary that an upload writes for a document. */
  datatype DocumentMetadata = DocumentMetadata(source: string, pages: nat, department: string)

  /** Stored document metadata (upload and modification times left out). */
  datatype Document = Document(
    id: string,
    title: string,
    content: string,
    metadata: DocumentMetadata,
    accessRoles: seq<Role>,
    uploadedBy: string)

  /**
   * One line of the audit log (timestamp left out). `details` is kept as a dictionary of strings;
   * values that are not strings in the log file, such as the role list of an upload entry, appear
   * here in their JSON text.
   */
  datatype AuditLog = AuditLog(
    userId: string,
    userRole: Role,
    action: string,
    details: Option<map<string, string>>)
}
