/**
 * The POST /detect endpoint: the guard on the request body, and the path of a
 * request through detection, post-processing and the image hand-off.
 * Decoding base64, decoding and resizing the image, running the model and
 * drawing the boxes are not modelled; they enter as function parameters.
 */
module Endpoint {
  import opened Detections
  import opened PostProcessor
  import opened ImageStore

  const BadRequest: int := 400
  const NoImagePart: string := "No image part"
  const NoSelectedImage: string := "No selected image"

  /** The outcome of the request guard: the decoded image bytes, or the
      400 reply with its error message. */
  datatype Guard = Accepted(image: Bytes) | Rejected(status: int, message: string)

  /** The request guard. A JSON object without an "image" field is rejected
      with "No image part"; one whose "image" decodes to no bytes with
      "No selected image"; any other is accepted with the decoded bytes. */
  function CheckDetectRequest(body: map<string, string>, decode: string -> Bytes): (g: Guard)
    ensures g.Rejected? ==> g.status == BadRequest
    ensures g.Rejected? && g.message == NoImagePart <==> "image" !in body
    ensures g.Rejected? && g.message == NoSelectedImage <==> "image" in body && decode(body["image"]) == []
    ensures g.Accepted? <==> "image" in body && decode(body["image"]) != []
    ensures g.Accepted? ==> g.image == decode(body["image"])
  {
    if "image" !in body then Rejected(BadRequest, NoImagePart)
    else
      var data := decode(body["image"]);
      if data == [] then Rejected(BadRequest, NoSelectedImage) else Accepted(data)
  }

  /** A request whose "image" is the empty string is rejected with
      "No selected image", whatever the decoder makes of other strings. */
  lemma EmptyImageRejected(decode: string -> Bytes)
    requires decode("") == []
    ensures CheckDetectRequest(map["image" := ""], decode) == Rejected(BadRequest, NoSelectedImage)
  {
  }

  /** The reply of POST /detect: the detections and the name of the annotated
      image (the last part of the image URL), a 400 from the guard, the
      failure of a kept detection without a label, or the failure of an image
      the model cannot read. */
  datatype DetectReply =
    | DetectOk(detections: seq<Detection>, imageName: string)
    | DetectRejected(status: int, message: string)
    | DetectFailed(error: PostError)
    | ImageUnreadable

  /** One request to POST /detect. The model (opening the image, resizing it
      and running inference; None when the bytes are not an image), the
      drawing of the boxes, and the name of the new temporary file are
      parameters; post-processing runs with the endpoint's threshold 0.5. */
  method HandleDetect(store: Store, body: map<string, string>, decode: string -> Bytes,
                      infer: Bytes -> Option<RawOutput>, imH: int, imW: int, labels: seq<string>,
                      render: (Bytes, seq<Detection>) -> Bytes, tempName: string)
    returns (reply: DetectReply)
    requires forall image :: infer(image).Some? ==> WellFormed(infer(image).value)
    requires tempName !in store.files
    modifies store
    ensures CheckDetectRequest(body, decode).Rejected? ==>
              var g := CheckDetectRequest(body, decode);
              reply == DetectRejected(g.status, g.message) && store.files == old(store.files)
    ensures CheckDetectRequest(body, decode).Accepted? && infer(CheckDetectRequest(body, decode).image).None? ==>
              reply == ImageUnreadable && store.files == old(store.files)
    ensures CheckDetectRequest(body, decode).Accepted? && infer(CheckDetectRequest(body, decode).image).Some? ==>
              var image := CheckDetectRequest(body, decode).image;
              match PostProcessed(infer(image).value, imH, imW, labels, EndpointMinConf)
              case Err(e) => reply == DetectFailed(e) && store.files == old(store.files)
              case Ok(ds) => reply == DetectOk(ds, tempName)
                             && store.files == old(store.files)[tempName := render(image, ds)]
  {
    var guard := CheckDetectRequest(body, decode);
    if guard.Rejected? {
      return DetectRejected(guard.status, guard.message);
    }
    var output := infer(guard.image);
    if output.None? {
      return ImageUnreadable;
    }
    var result := PostProcess(output.value, imH, imW, labels, EndpointMinConf);
    if result.Err? {
      return DetectFailed(result.error);
    }
    store.Put(tempName, render(guard.image, result.value));
    reply := DetectOk(result.value, tempName);
  }

  /** A detection followed by two fetches of its image URL: the first fetch
      serves the annotated image, the second gets 404, and the directory ends
      as it was before the request. */
  method DetectThenFetchTwice(store: Store, body: map<string, string>, decode: string -> Bytes,
                              infer: Bytes -> Option<RawOutput>, imH: int, imW: int, labels: seq<string>,
                              render: (Bytes, seq<Detection>) -> Bytes, tempName: string)
    returns (reply: DetectReply, first: Retrieval, second: Retrieval)
    requires forall image :: infer(image).Some? ==> WellFormed(infer(image).value)
    requires tempName !in store.files
    modifies store
    ensures reply.DetectOk? ==> CheckDetectRequest(body, decode).Accepted?
    ensures reply.DetectOk? ==> first.Served? && second == NotFound
    ensures reply.DetectOk? ==> first.jpeg == render(CheckDetectRequest(body, decode).image, reply.detections)
    ensures store.files == old(store.files)
  {
    reply := HandleDetect(store, body, decode, infer, imH, imW, labels, render, tempName);
    if reply.DetectOk? {
      first := store.Take(reply.imageName);
      second := store.Take(reply.imageName);
      assert store.files == old(store.files);
    } else {
      first, second := NotFound, NotFound;
    }
  }
}
