/** The decision logic of the two classification handlers: reject a request
    without a file, pass the classifier's ranked candidates through to the
    response, and record the top candidate's description in the ledger. */
module Server {
  import opened ShelfLife
  import opened Ledger

  /** One entry of the classifier's ranked output: a class id, its
      human-readable description and a confidence that is passed through as is. */
  datatype Candidate = Candidate(classId: string, description: string, score: real)

  /** One object of the prediction response, with keys class, description and confidence. */
  datatype Prediction = Prediction(className: string, description: string, confidence: real)

  /** One line of the upload page: a description and its confidence. */
  datatype ResultLine = ResultLine(description: string, confidence: real)

  /** What becomes of an uploaded image: it fails to decode or classify, or the
      classifier ranks its candidates. */
  datatype ImageOutcome =
    | Undecodable                         // the image cannot be decoded or classified
    | Classified(ranked: seq<Candidate>)  // the classifier's ranked output for the image

  /** What a request carries under the form field `file`. */
  datatype Upload =
    | NoFile                                    // the form has no field `file`
    | Part(named: bool, image: ImageOutcome)    // a file part; `named` is false for an empty file name

  datatype Response =
    | NoFileUploaded                      // 400 with the error "No file uploaded"
    | MissingFormField                    // 400 raised by the framework for an absent field (non-debug)
    | ServerError                         // 500: an exception escaped the handler
    | Predictions(items: seq<Prediction>) // 200 with the predictions list
    | BlankForm                           // 200: the upload page without results
    | ResultPage(lines: seq<ResultLine>)  // 200: the upload page listing the results

  /** The HTTP status that goes with each response. */
  function StatusCode(r: Response): (code: int)
    ensures code == 400 <==> r.NoFileUploaded? || r.MissingFormField?
    ensures code == 500 <==> r.ServerError?
    ensures code in {200, 400, 500}
  {
    match r
    case NoFileUploaded => 400
    case MissingFormField => 400
    case ServerError => 500
    case _ => 200
  }

  /** Reads a prediction object back as the classifier entry it came from. */
  function PredictionToCandidate(p: Prediction): Candidate {
    Candidate(p.className, p.description, p.confidence)
  }

  /** The response objects, one per candidate, in the classifier's order. */
  function Predicted(ranked: seq<Candidate>): (items: seq<Prediction>)
    ensures |items| == |ranked|
    ensures forall i :: 0 <= i < |ranked| ==> PredictionToCandidate(items[i]) == ranked[i]
  {
    seq(|ranked|, i requires 0 <= i < |ranked| =>
      Prediction(ranked[i].classId, ranked[i].description, ranked[i].score))
  }

  /** The upload page's lines, one per candidate, in the classifier's order. */
  function ResultLines(ranked: seq<Candidate>): (lines: seq<ResultLine>)
    ensures |lines| == |ranked|
    ensures forall i :: 0 <= i < |ranked| ==>
      lines[i].description == ranked[i].description && lines[i].confidence == ranked[i].score
  {
    seq(|ranked|, i requires 0 <= i < |ranked| => ResultLine(ranked[i].description, ranked[i].score))
  }

  /** The prediction endpoint. Without a file it answers 400 and saves nothing.
      The part's file name is not looked at. When decoding, classifying or taking
      the top candidate fails it answers 500 and saves nothing; otherwise it saves
      one record for the top candidate's description and answers with every
      candidate in order. */
  method Predict(ledger: ExpiryLedger, upload: Upload, now: int) returns (resp: Response)
    modifies ledger
    ensures upload.NoFile? ==>
      resp == NoFileUploaded && StatusCode(resp) == 400 && ledger.store == old(ledger.store)
    ensures upload.Part? && (upload.image.Undecodable? || upload.image == Classified([])) ==>
      resp == ServerError && ledger.store == old(ledger.store)
    ensures upload.Part? && upload.image.Classified? && upload.image.ranked != [] ==>
      && resp == Predictions(Predicted(upload.image.ranked))
      && StatusCode(resp) == 200
      && ledger.store == Appended(old(ledger.store), MakeRecord(upload.image.ranked[0].description, now))
  {
    match upload {
      case NoFile =>
        return NoFileUploaded;
      case Part(_, Undecodable) =>
        return ServerError;
      case Part(_, Classified(ranked)) =>
        var results := Predicted(ranked);
        if |ranked| == 0 {
          return ServerError;
        }
        var mainPrediction := ranked[0].description;
        ledger.SaveRecord(mainPrediction, now);
        return Predictions(results);
    }
  }

  /** The upload page. A GET shows the blank form. A POST without the field
      raises in the framework: a 400, or a 500 when the server runs in debug
      mode, which turns such errors into unhandled exceptions. A POST with an
      unnamed part shows the blank form; one whose image fails is a 500;
      otherwise it saves one record for the top candidate's description and
      shows every candidate in order. */
  method UploadFile(ledger: ExpiryLedger, isPost: bool, upload: Upload, now: int, debug: bool)
    returns (resp: Response)
    modifies ledger
    ensures !isPost ==> resp == BlankForm && ledger.store == old(ledger.store)
    ensures isPost && upload.NoFile? ==>
      && resp == (if debug then ServerError else MissingFormField)
      && StatusCode(resp) == (if debug then 500 else 400)
      && ledger.store == old(ledger.store)
    ensures isPost && upload.Part? && !upload.named ==>
      resp == BlankForm && ledger.store == old(ledger.store)
    ensures isPost && upload.Part? && upload.named
              && (upload.image.Undecodable? || upload.image == Classified([])) ==>
      resp == ServerError && ledger.store == old(ledger.store)
    ensures isPost && upload.Part? && upload.named
              && upload.image.Classified? && upload.image.ranked != [] ==>
      && resp == ResultPage(ResultLines(upload.image.ranked))
      && StatusCode(resp) == 200
      && ledger.store == Appended(old(ledger.store), MakeRecord(upload.image.ranked[0].description, now))
  {
    if !isPost {
      return BlankForm;
    }
    match upload {
      case NoFile =>
        return if debug then ServerError else MissingFormField;
      case Part(named, image) =>
        if !named {
          return BlankForm;
        }
        match image {
          case Undecodable =>
            return ServerError;
          case Classified(top3) =>
            var result := ResultLines(top3);
            if |top3| == 0 {
              return ServerError;
            }
            var mainPrediction := top3[0].description;
            ledger.SaveRecord(mainPrediction, now);
            return ResultPage(result);
        }
    }
  }

  /** After a successful prediction the latest record is the one for the top
      candidate: its fruit is the first prediction's description, unchanged, its
      shelf life follows the policy, and it expires exactly that many days after
      it was added. */
  lemma LatestAfterPredict(s: StoreFile, ranked: seq<Candidate>, now: int)
    requires ranked != []
    ensures var after := Appended(s, MakeRecord(ranked[0].description, now));
            && LatestRecord(after).Found?
            && LatestRecord(after).record.fruit == Predicted(ranked)[0].description
            && LatestRecord(after).record.expiryDays == ExpiryDays(Predicted(ranked)[0].description)
            && LatestRecord(after).record.addedAt == Stamp(now)
            && WellFormed(LatestRecord(after).record)
            && |Loaded(after)| == |Loaded(s)| + 1
  {
  }

  /** A top candidate described as "banana" is saved with a shelf life of three
      days, expiring exactly three days after it was added. */
  lemma BananaScenario(s: StoreFile, now: int)
    ensures var r := LatestRecord(Appended(s, MakeRecord("banana", now))).record;
            r.fruit == "banana" && r.expiryDays == 3 && r.expiryAt == r.addedAt + 3 * SecondsPerDay
  {
    ExpiryDaysOfListedFruit("banana");
    LatestAfterAppend(s, MakeRecord("banana", now));
  }

  /** An unlisted top candidate such as "kiwi" is saved with the default shelf life. */
  lemma KiwiScenario(s: StoreFile, now: int)
    ensures var r := LatestRecord(Appended(s, MakeRecord("kiwi", now))).record;
            r.fruit == "kiwi" && r.expiryDays == DefaultDays
            && r.expiryAt == r.addedAt + DefaultDays * SecondsPerDay
  {
    ExpiryDaysOfOtherNames();
    LatestAfterAppend(s, MakeRecord("kiwi", now));
  }
}
