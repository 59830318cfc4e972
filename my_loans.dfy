/** The employee's own loans: the list load, and the dialog that uploads a
    payment proof for an approved loan. */
module MyLoans {
  import opened Js

  /** A loan row as the table reads it. */
  datatype Loan = Loan(id: int, status: Option<string>)

  /** The chosen proof file; only its identity matters here. */
  datatype ProofFile = ProofFile(name: string)

  /** One `FormData` value: a text or the file. */
  datatype FormValue = Text(text: string) | File(file: ProofFile)

  /** What `GET /loans` returned: an array, or an object whose `data` may hold one. */
  datatype LoansBody = LoanArray(items: seq<Loan>) | LoanObject(data: Option<seq<Loan>>)

  /** `Array.isArray(data) ? data : data?.data || []`. */
  function LoansOf(body: LoansBody): (loans: seq<Loan>)
    ensures body.LoanArray? ==> loans == body.items
    ensures body.LoanObject? && body.data.Some? ==> loans == body.data.value
    ensures body.LoanObject? && body.data.None? ==> loans == []
  {
    match body
    case LoanArray(items) => items
    case LoanObject(data) => Coalesce(data, [])
  }

  /** Upload is offered only for an approved loan. */
  predicate CanUpload(loan: Loan) {
    loan.status == Some("approved")
  }

  /** The form fields, in the order they are appended. */
  function FieldNames(fields: seq<(string, FormValue)>): seq<string> {
    seq(|fields|, i requires 0 <= i < |fields| => fields[i].0)
  }

  /** `fd.append` step by step: the loan id always, the amount when typed,
      the proof when chosen. */
  method ProofForm(loan: Loan, payAmount: string, proof: Option<ProofFile>) returns (fields: seq<(string, FormValue)>)
    ensures |fields| >= 1 && fields[0] == ("loan_id", Text(IntToString(loan.id)))
    ensures "amount" in FieldNames(fields) <==> payAmount != ""
    ensures "proof" in FieldNames(fields) <==> proof.Some?
    ensures forall i :: 0 <= i < |fields| && fields[i].0 == "amount" ==> fields[i].1 == Text(payAmount)
    ensures forall i :: 0 <= i < |fields| && fields[i].0 == "proof" ==> proof.Some? && fields[i].1 == File(proof.value)
    ensures |fields| == 1 + (if payAmount != "" then 1 else 0) + (if proof.Some? then 1 else 0)
  {
    fields := [("loan_id", Text(IntToString(loan.id)))];
    assert FieldNames(fields) == ["loan_id"];
    if payAmount != "" {
      fields := fields + [("amount", Text(payAmount))];
    }
    if proof.Some? {
      fields := fields + [("proof", File(proof.value))];
    }
    assert "loan_id" != "amount" && "loan_id" != "proof" && "amount" != "proof" by {
      assert "loan_id"[0] != "amount"[0] && "loan_id"[0] != "proof"[0] && "amount"[0] != "proof"[0];
    }
    assert "amount" in FieldNames(fields) <==> payAmount != "" by {
      if payAmount != "" { assert FieldNames(fields)[1] == "amount"; }
    }
    assert "proof" in FieldNames(fields) <==> proof.Some? by {
      if proof.Some? { assert FieldNames(fields)[|fields| - 1] == "proof"; }
    }
  }

  class MyLoansTable {
    var loans: seq<Loan>
    var err: Option<string>
    var isOpen: bool
    var selectedLoan: Option<Loan>
    var proofFile: Option<ProofFile>
    var payAmount: string
    var submitting: bool
    var submitErr: Option<string>

    constructor ()
      ensures loans == [] && err == None && !isOpen && selectedLoan == None
      ensures proofFile == None && payAmount == "" && !submitting && submitErr == None
      ensures UploadGuard()
    {
      loans, err, isOpen, selectedLoan := [], None, false, None;
      proofFile, payAmount, submitting, submitErr := None, "", false, None;
    }

    /** `fetchLoans`: the rows on success; the error line otherwise, the rows kept. */
    method Load(reply: Reply<LoansBody>)
      modifies this`loans, this`err
      ensures reply.Replied? ==> loans == LoansOf(reply.value) && err == None
      ensures reply.Errored? ==>
        && loans == old(loans)
        && err == Some(LoadErrorMessage(reply.error, "Gagal memuat daftar pinjaman"))
    {
      err := None;
      match reply {
        case Replied(body) => loans := LoansOf(body);
        case Errored(e) => err := Some(LoadErrorMessage(e, "Gagal memuat daftar pinjaman"));
      }
    }

    /** The loan in the dialog, if any, passed the guard of the button that shown it. */
    predicate UploadGuard()
      reads this
    {
      selectedLoan.Some? ==> CanUpload(selectedLoan.value)
    }

    /** The "Upload Bukti" button of a row: live only for an approved loan, so
        a click opens the dialog on an approved loan and does nothing else. */
    method ClickUpload(loan: Loan) returns (shown: bool)
      modifies this`isOpen, this`selectedLoan, this`proofFile, this`payAmount, this`submitErr
      ensures shown <==> CanUpload(loan)
      ensures shown ==> isOpen && selectedLoan == Some(loan) && proofFile == None && payAmount == "" && submitErr == None
      ensures !shown ==>
        && isOpen == old(isOpen) && selectedLoan == old(selectedLoan) && proofFile == old(proofFile)
        && payAmount == old(payAmount) && submitErr == old(submitErr)
      ensures old(UploadGuard()) ==> UploadGuard()
    {
      shown := CanUpload(loan);
      if shown {
        OpenUpload(loan);
      }
    }

    /** `openUploadModal(loan)`, reached only from a live button: the dialog
        starts empty for that loan. */
    method OpenUpload(loan: Loan)
      requires CanUpload(loan)
      modifies this`isOpen, this`selectedLoan, this`proofFile, this`payAmount, this`submitErr
      ensures isOpen && selectedLoan == Some(loan) && UploadGuard()
      ensures proofFile == None && payAmount == "" && submitErr == None
    {
      selectedLoan := Some(loan);
      proofFile := None;
      payAmount := "";
      submitErr := None;
      isOpen := true;
    }

    /** `closeUploadModal()`: the dialog closes with nothing left in it. */
    method CloseUpload()
      modifies this`isOpen, this`selectedLoan, this`proofFile, this`payAmount, this`submitErr
      ensures !isOpen && selectedLoan == None && UploadGuard()
      ensures proofFile == None && payAmount == "" && submitErr == None
    {
      isOpen := false;
      selectedLoan := None;
      proofFile := None;
      payAmount := "";
      submitErr := None;
    }

    /** The send button is disabled while sending or with no file chosen. */
    predicate SubmitDisabled()
      reads this
    {
      submitting || proofFile.None?
    }

    /** The "Kirim Bukti" button: disabled while sending or with no file, so
        it submits only a form that carries a proof, for an approved loan. */
    method PressSend(failure: Option<HttpError>) returns (sent: Option<seq<(string, FormValue)>>, reload: bool)
      requires UploadGuard()
      modifies this`isOpen, this`selectedLoan, this`proofFile, this`payAmount, this`submitErr, this`submitting
      ensures old(SubmitDisabled()) ==>
        && sent.None? && !reload && isOpen == old(isOpen) && selectedLoan == old(selectedLoan)
        && proofFile == old(proofFile) && payAmount == old(payAmount) && submitErr == old(submitErr)
        && submitting == old(submitting)
      ensures sent.Some? <==> !old(SubmitDisabled()) && old(selectedLoan).Some?
      ensures sent.Some? ==> "proof" in FieldNames(sent.value) && old(selectedLoan).Some? && CanUpload(old(selectedLoan).value)
      ensures UploadGuard()
    {
      if SubmitDisabled() {
        return None, false;
      }
      sent, reload := SubmitProof(failure);
    }

    /** `onSubmitProof` with `failure` how `POST /settlements` settled, reached
      only from the enabled send button: the form sent (if a loan is
      selected); a success closes the dialog and asks for the list again, a
      failure keeps the dialog open with its message. */
    method SubmitProof(failure: Option<HttpError>) returns (sent: Option<seq<(string, FormValue)>>, reload: bool)
      requires !SubmitDisabled() && UploadGuard()
      modifies this`isOpen, this`selectedLoan, this`proofFile, this`payAmount, this`submitErr, this`submitting
      ensures sent.Some? ==> "proof" in FieldNames(sent.value) && old(selectedLoan).Some? && CanUpload(old(selectedLoan).value)
      ensures UploadGuard()
      ensures sent.None? <==> old(selectedLoan).None?
      ensures sent.None? ==>
        && !reload && isOpen == old(isOpen) && selectedLoan == old(selectedLoan) && proofFile == old(proofFile)
        && payAmount == old(payAmount) && submitErr == old(submitErr) && submitting == old(submitting)
      ensures sent.Some? ==> !submitting
      ensures sent.Some? ==> |sent.value| >= 1 && sent.value[0] == ("loan_id", Text(IntToString(old(selectedLoan).value.id)))
      ensures sent.Some? ==> ("proof" in FieldNames(sent.value) <==> old(proofFile).Some?)
      ensures sent.Some? ==> ("amount" in FieldNames(sent.value) <==> old(payAmount) != "")
      ensures sent.Some? ==> forall i :: 0 <= i < |sent.value| && sent.value[i].0 == "amount" ==>
        sent.value[i].1 == Text(old(payAmount))
      ensures sent.Some? ==> forall i :: 0 <= i < |sent.value| && sent.value[i].0 == "proof" ==>
        old(proofFile).Some? && sent.value[i].1 == File(old(proofFile).value)
      ensures sent.Some? && failure.None? ==>
        && reload && !isOpen && selectedLoan == None && proofFile == None && payAmount == "" && submitErr == None
      ensures sent.Some? && failure.Some? ==>
        && !reload && isOpen == old(isOpen) && selectedLoan == old(selectedLoan)
        && proofFile == old(proofFile) && payAmount == old(payAmount)
        && submitErr == Some(LoadErrorMessage(failure.value, "Gagal mengunggah bukti pembayaran"))
    {
      if selectedLoan.None? {
        return None, false;
      }
      submitting := true;
      submitErr := None;
      var fields := ProofForm(selectedLoan.value, payAmount, proofFile);
      sent := Some(fields);
      match failure {
        case None =>
          CloseUpload();
          reload := true;
        case Some(e) =>
          submitErr := Some(LoadErrorMessage(e, "Gagal mengunggah bukti pembayaran"));
          reload := false;
      }
      submitting := false;
    }
  }
}
